/**
 * One invocation of the announcer (`main`): the configuration, the fetched
 * events and today's day ordinal are inputs; the output is the ordered log
 * of published messages and how the run ended.
 *
 * The specification functions `HandleEvent`, `HandleAll` and `RunSpec`
 * describe the pass; the methods `ProcessEvent` and `Run` perform it step by
 * step against an `Outbox` and are proved to publish exactly what the
 * functions describe. The lemmas state the selection rules.
 */
module Runner {
  import opened Wrappers
  import opened Text
  import opened Dates
  import opened Configuration
  import opened Messages
  import opened Publishing

  /** Why one event was skipped (the exception the per-event handler caught). */
  datatype EventError =
    | MissingField(field: Field)   // KeyError on the event
    | UnparsableDate               // ValueError from strptime
    | NoEventRules                 // KeyError on config['events']
    | DateOutOfRange               // OverflowError computing today + 7 days

  /** What one event contributes: published messages, summary notices, and the error that ended it. */
  datatype EventResult = EventResult(posts: seq<Post>, notices: seq<string>, error: Option<EventError>)

  /** Everything the per-event step reads besides the event. */
  datatype Context = Context(rules: Option<seq<RuleEntry>>, today: int, webhook: string, dryRun: bool)

  datatype Pass = Pass(posts: seq<Post>, notices: seq<string>)

  /** A KeyError raised outside the per-event handler ends the whole run. */
  datatype AbortReason =
    | NoSummarySection   // config['discord']['summary'] before the fetch
    | NoSummaryDaily     // config['discord']['summary']['daily'] in is_summary_day
    | NoSummaryEnabled   // config['discord']['summary']['enabled'] on the summary day

  datatype RunStatus = Rejected(error: ConfigError) | Aborted(reason: AbortReason) | Completed

  datatype RunResult = RunResult(posts: seq<Post>, status: RunStatus)

  function Skip(error: EventError): EventResult {
    EventResult([], [], Some(error))
  }

  /** The weekly-notice block: only for an event exactly seven days out. */
  function WeeklyStep(ctx: Context, e: Event, date: int, threadId: Option<string>): EventResult {
    if date != ctx.today + 7 then EventResult([], [], None)
    else match WeeklyMessage(e, date)
      case Err(f) => Skip(MissingField(f))
      case Ok(text) => EventResult([Post(ctx.webhook, text, threadId, DeliveryFor(ctx.dryRun))], [text], None)
  }

  /**
   * The date tests of the per-event `try` block, once the date, the name and
   * the matched rule are known: the weekly notice, then the reminder.
   */
  function Scheduled(ctx: Context, e: Event, date: int, rule: Rule): EventResult {
    if ctx.today + 7 > LastOrdinal then Skip(DateOutOfRange)
    else
      var weekly := WeeklyStep(ctx, e, date, rule.threadId);
      if weekly.error.Some? || !(Reminds(rule) && date == ctx.today) then weekly
      else match ReminderMessage(e)
        case Err(f) => weekly.(error := Some(MissingField(f)))
        case Ok(text) =>
          weekly.(posts := weekly.posts + [Post(ctx.webhook, text, rule.threadId, DeliveryFor(ctx.dryRun))])
  }

  /** The body of the per-event `try` block, in the order the source evaluates it. */
  function HandleEvent(ctx: Context, e: Event): EventResult {
    match e.localDate
    case None => Skip(MissingField(LocalDate))
    case Some(raw) =>
      match ParseDate(raw)
      case None => Skip(UnparsableDate)
      case Some(d) =>
        match e.name
        case None => Skip(MissingField(Name))
        case Some(name) =>
          match ctx.rules
          case None => Skip(NoEventRules)
          case Some(entries) => Scheduled(ctx, e, ToOrdinal(d), RuleFor(entries, name))
  }

  /** The per-event step of a run with context `ctx`. */
  function Handler(ctx: Context): Event -> EventResult {
    e => HandleEvent(ctx, e)
  }

  /**
   * The event loop: each event in input order goes through `handle`, a skipped
   * one contributing what it published before failing.
   */
  function HandleAll(handle: Event -> EventResult, events: seq<Event>): Pass {
    if events == [] then Pass([], [])
    else
      var before := HandleAll(handle, events[..|events| - 1]);
      var last := handle(events[|events| - 1]);
      Pass(before.posts + last.posts, before.notices + last.notices)
  }

  /** `validate_config` followed by `main`. */
  function RunSpec(c: Config, events: seq<Event>, today: int, dryRun: bool): RunResult {
    match ValidationError(c)
    case Some(error) => RunResult([], Rejected(error))
    case None =>
      var discord := c.discord.value;
      match discord.summary
      case None => RunResult([], Aborted(NoSummarySection))
      case Some(summary) =>
        var pass := HandleAll(Handler(Context(c.events, today, discord.webhook.value, dryRun)), events);
        match summary.daily
        case None => RunResult(pass.posts, Aborted(NoSummaryDaily))
        case Some(daily) =>
          if !IsSummaryDay(today, daily) then RunResult(pass.posts, Completed)
          else match summary.enabled
            case None => RunResult(pass.posts, Aborted(NoSummaryEnabled))
            case Some(false) => RunResult(pass.posts, Completed)
            case Some(true) =>
              var digest := Post(summary.webhook.value, DigestMessage(pass.notices), None, DeliveryFor(dryRun));
              RunResult(pass.posts + [digest], Completed)
  }

  /** One iteration of the event loop, publishing as it goes. */
  method ProcessEvent(ctx: Context, e: Event, out: Outbox) returns (notices: seq<string>, error: Option<EventError>)
    modifies out
    ensures out.log == old(out.log) + HandleEvent(ctx, e).posts
    ensures notices == HandleEvent(ctx, e).notices && error == HandleEvent(ctx, e).error
  {
    if e.localDate.None? {
      return [], Some(MissingField(LocalDate));
    }
    var parsed := ParseDate(e.localDate.value);
    if parsed.None? {
      return [], Some(UnparsableDate);
    }
    var date := ToOrdinal(parsed.value);
    if e.name.None? {
      return [], Some(MissingField(Name));
    }
    if ctx.rules.None? {
      return [], Some(NoEventRules);
    }
    var rule := GetEventConfig(ctx.rules.value, e.name.value);
    var threadId := rule.threadId;
    if ctx.today + 7 > LastOrdinal {
      return [], Some(DateOutOfRange);
    }
    notices := [];
    if date == ctx.today + 7 {
      var weekly := WeeklyMessage(e, date);
      if weekly.Err? {
        return [], Some(MissingField(weekly.error));
      }
      notices := notices + [weekly.value];
      out.Publish(ctx.webhook, weekly.value, threadId, ctx.dryRun);
    }
    if Reminds(rule) && date == ctx.today {
      var reminder := ReminderMessage(e);
      if reminder.Err? {
        return notices, Some(MissingField(reminder.error));
      }
      out.Publish(ctx.webhook, reminder.value, threadId, ctx.dryRun);
    }
    error := None;
  }

  /** The event loop of `main`: every event in turn, collecting the weekly notices for the digest. */
  method ProcessEvents(ctx: Context, events: seq<Event>, out: Outbox) returns (summaryMessages: seq<string>)
    modifies out
    ensures out.log == old(out.log) + HandleAll(Handler(ctx), events).posts
    ensures summaryMessages == HandleAll(Handler(ctx), events).notices
  {
    summaryMessages := [];
    for i := 0 to |events|
      invariant out.log == old(out.log) + HandleAll(Handler(ctx), events[..i]).posts
      invariant summaryMessages == HandleAll(Handler(ctx), events[..i]).notices
    {
      assert events[..i + 1][..i] == events[..i];
      var notices, error := ProcessEvent(ctx, events[i], out);
      summaryMessages := summaryMessages + notices;
    }
    assert events[..|events|] == events;
  }

  /** `validate_config` then `main`: the event loop and the digest step. */
  method Run(c: Config, events: seq<Event>, today: int, dryRun: bool, out: Outbox) returns (status: RunStatus)
    modifies out
    ensures out.log == old(out.log) + RunSpec(c, events, today, dryRun).posts
    ensures status == RunSpec(c, events, today, dryRun).status
  {
    var problem := ValidationError(c);
    if problem.Some? {
      return Rejected(problem.value);
    }
    var discordWebhook := c.discord.value.webhook.value;
    if c.discord.value.summary.None? {
      return Aborted(NoSummarySection);
    }
    var summary := c.discord.value.summary.value;
    var summaryWebhook := summary.webhook;
    var summaryMessages := ProcessEvents(Context(c.events, today, discordWebhook, dryRun), events, out);
    if summary.daily.None? {
      return Aborted(NoSummaryDaily);
    }
    if IsSummaryDay(today, summary.daily.value) {
      if summary.enabled.None? {
        return Aborted(NoSummaryEnabled);
      }
      if summary.enabled.value {
        out.Publish(summaryWebhook.value, DigestMessage(summaryMessages), None, dryRun);
      }
    }
    status := Completed;
  }

  /** The texts of the published weekly notices, in publication order. */
  function WeeklyTexts(posts: seq<Post>): seq<string> {
    if posts == [] then []
    else
      var last := posts[|posts| - 1];
      WeeklyTexts(posts[..|posts| - 1]) + (if IsPrefix(WeeklyLead, last.text) then [last.text] else [])
  }

  lemma {:induction false} WeeklyTextsAppend(a: seq<Post>, b: seq<Post>)
    ensures WeeklyTexts(a + b) == WeeklyTexts(a) + WeeklyTexts(b)
    decreases |b|
  {
    if b == [] {
      assert a + b == a;
    } else {
      var front := b[..|b| - 1];
      assert (a + b)[..|a + b| - 1] == a + front;
      assert (a + b)[|a + b| - 1] == b[|b| - 1];
      WeeklyTextsAppend(a, front);
    }
  }

  /** Every post goes to the main webhook, in the mode of the run, on the matched rule's thread. */
  predicate PostedFor(ctx: Context, e: Event, p: Post) {
    p.webhook == ctx.webhook && p.delivery == DeliveryFor(ctx.dryRun)
    && ctx.rules.Some? && e.name.Some? && p.threadId == RuleFor(ctx.rules.value, e.name.value).threadId
  }

  /** The weekly block publishes only for an event seven days out, and its notice is its post's text. */
  lemma WeeklyStepShape(ctx: Context, e: Event, date: int, threadId: Option<string>)
    ensures WeeklyStep(ctx, e, date, threadId).posts != [] ==> date == ctx.today + 7
    ensures |WeeklyStep(ctx, e, date, threadId).posts| <= 1
    ensures WeeklyStep(ctx, e, date, threadId).notices == WeeklyTexts(WeeklyStep(ctx, e, date, threadId).posts)
    ensures WeeklyStep(ctx, e, date, threadId).error.Some? ==> WeeklyStep(ctx, e, date, threadId).posts == []
    ensures forall p :: p in WeeklyStep(ctx, e, date, threadId).posts ==>
              p.webhook == ctx.webhook && p.delivery == DeliveryFor(ctx.dryRun) && p.threadId == threadId
  {
    assert WeeklyTexts([]) == [];
    var w := WeeklyStep(ctx, e, date, threadId);
    if w.posts != [] {
      assert w.posts[..0] == [];
    }
  }

  /** The date tests publish at most one message, on the rule's thread, and a notice only for a weekly post. */
  lemma ScheduledShape(ctx: Context, e: Event, date: int, rule: Rule)
    ensures |Scheduled(ctx, e, date, rule).posts| <= 1
    ensures Scheduled(ctx, e, date, rule).notices == WeeklyTexts(Scheduled(ctx, e, date, rule).posts)
    ensures Scheduled(ctx, e, date, rule).error.Some? ==> Scheduled(ctx, e, date, rule).posts == []
    ensures forall p :: p in Scheduled(ctx, e, date, rule).posts ==>
              p.webhook == ctx.webhook && p.delivery == DeliveryFor(ctx.dryRun) && p.threadId == rule.threadId
  {
    assert WeeklyTexts([]) == [];
    WeeklyStepShape(ctx, e, date, rule.threadId);
    var weekly := WeeklyStep(ctx, e, date, rule.threadId);
    if ctx.today + 7 <= LastOrdinal && weekly.error.None? && Reminds(rule) && date == ctx.today {
      assert weekly.posts == [] && weekly.notices == [];
      match ReminderMessage(e)
      case Err(f) =>
      case Ok(text) =>
        KindsDiffer(e, []);
        var posts := [Post(ctx.webhook, text, rule.threadId, DeliveryFor(ctx.dryRun))];
        assert posts[..0] == [];
        assert WeeklyTexts(posts) == [];
    }
  }

  /**
   * One event publishes at most one message. Its summary notice is the text
   * of that message when it is a weekly notice, and nothing otherwise, so the
   * summary list gets the weekly text exactly once. A skipped event leaves
   * nothing behind.
   */
  lemma EventShape(ctx: Context, e: Event)
    ensures |HandleEvent(ctx, e).posts| <= 1
    ensures HandleEvent(ctx, e).notices == WeeklyTexts(HandleEvent(ctx, e).posts)
    ensures HandleEvent(ctx, e).error.Some? ==> HandleEvent(ctx, e).posts == []
    ensures forall p :: p in HandleEvent(ctx, e).posts ==> PostedFor(ctx, e, p)
  {
    assert WeeklyTexts([]) == [];
    if e.localDate.Some? && ParseDate(e.localDate.value).Some? && e.name.Some? && ctx.rules.Some? {
      ScheduledShape(ctx, e, ToOrdinal(ParseDate(e.localDate.value).value), RuleFor(ctx.rules.value, e.name.value));
    }
  }

  /** The event's date parses to `d`, and the lookups before the date tests succeed. */
  predicate Reaches(ctx: Context, e: Event, d: Date) {
    e.localDate.Some? && ParseDate(e.localDate.value) == Some(d)
    && e.name.Some? && ctx.rules.Some? && ctx.today + 7 <= LastOrdinal
  }

  /**
   * For an event dated `d` that has a link (and, by `Reaches`, a name): the
   * weekly notice is published and collected exactly when `d` is seven days
   * after today. The reminder fields need not be present.
   */
  lemma WeeklyOutcome(ctx: Context, e: Event, d: Date)
    requires Reaches(ctx, e, d) && e.link.Some?
    ensures HandleEvent(ctx, e).notices
         == if ToOrdinal(d) == ctx.today + 7 then [WeeklyMessage(e, ToOrdinal(d)).value] else []
    ensures ToOrdinal(d) == ctx.today + 7 ==>
              HandleEvent(ctx, e) == EventResult([Post(ctx.webhook, WeeklyMessage(e, ToOrdinal(d)).value,
                                                       RuleFor(ctx.rules.value, e.name.value).threadId,
                                                       DeliveryFor(ctx.dryRun))],
                                                 [WeeklyMessage(e, ToOrdinal(d)).value], None)
  {
  }

  /**
   * For an event dated `d` other than a week out: it publishes the reminder
   * exactly when `d` is today, the matched rule enables reminders and the
   * reminder template finds all its fields; otherwise nothing at all.
   */
  lemma ReminderOutcome(ctx: Context, e: Event, d: Date)
    requires Reaches(ctx, e, d) && ToOrdinal(d) != ctx.today + 7
    ensures HandleEvent(ctx, e).posts
         == var rule := RuleFor(ctx.rules.value, e.name.value);
            if Reminds(rule) && ToOrdinal(d) == ctx.today && ReminderMessage(e).Ok? then
              [Post(ctx.webhook, ReminderMessage(e).value, rule.threadId, DeliveryFor(ctx.dryRun))]
            else []
  {
  }

  /** All the fields the two templates read are present. */
  predicate Complete(e: Event) {
    e.name.Some? && e.localTime.Some? && e.link.Some? && e.yesRsvpCount.Some?
  }

  /**
   * For a complete event dated `d`: the weekly notice is published (and
   * collected) exactly when `d` is seven days after today, the reminder
   * exactly when `d` is today and the matched rule enables reminders, and
   * nothing otherwise.
   */
  lemma CompleteEventOutcome(ctx: Context, e: Event, d: Date)
    requires Reaches(ctx, e, d) && Complete(e)
    ensures HandleEvent(ctx, e).error.None?
    ensures HandleEvent(ctx, e).notices
         == if ToOrdinal(d) == ctx.today + 7 then [WeeklyMessage(e, ToOrdinal(d)).value] else []
    ensures HandleEvent(ctx, e).posts
         == var thread := RuleFor(ctx.rules.value, e.name.value).threadId;
            if ToOrdinal(d) == ctx.today + 7 then
              [Post(ctx.webhook, WeeklyMessage(e, ToOrdinal(d)).value, thread, DeliveryFor(ctx.dryRun))]
            else if Reminds(RuleFor(ctx.rules.value, e.name.value)) && ToOrdinal(d) == ctx.today then
              [Post(ctx.webhook, ReminderMessage(e).value, thread, DeliveryFor(ctx.dryRun))]
            else []
  {
  }

  /** Only an event exactly seven days out gives a weekly notice: six or eight days out gives none. */
  lemma OnlySevenDaysOut(ctx: Context, e: Event, d: Date)
    requires e.localDate.Some? && ParseDate(e.localDate.value) == Some(d)
    requires ToOrdinal(d) != ctx.today + 7
    ensures HandleEvent(ctx, e).notices == []
    ensures WeeklyTexts(HandleEvent(ctx, e).posts) == []
  {
    EventShape(ctx, e);
  }

  /** The loop handles a concatenation as the first part, then the second. */
  lemma {:induction false} HandleAllAppend(handle: Event -> EventResult, xs: seq<Event>, ys: seq<Event>)
    ensures HandleAll(handle, xs + ys).posts == HandleAll(handle, xs).posts + HandleAll(handle, ys).posts
    ensures HandleAll(handle, xs + ys).notices == HandleAll(handle, xs).notices + HandleAll(handle, ys).notices
    decreases |ys|
  {
    if ys == [] {
      assert xs + ys == xs;
    } else {
      var front := ys[..|ys| - 1];
      assert (xs + ys)[..|xs + ys| - 1] == xs + front;
      assert (xs + ys)[|xs + ys| - 1] == ys[|ys| - 1];
      HandleAllAppend(handle, xs, front);
    }
  }

  /** An event for which `handle` yields nothing can be dropped from the list without changing the loop. */
  lemma SilentEventIsTransparent(handle: Event -> EventResult, xs: seq<Event>, e: Event, ys: seq<Event>)
    requires handle(e).posts == [] && handle(e).notices == []
    ensures HandleAll(handle, xs + [e] + ys) == HandleAll(handle, xs + ys)
  {
    HandleAllAppend(handle, xs + [e], ys);
    HandleAllAppend(handle, xs, [e]);
    HandleAllAppend(handle, xs, ys);
    assert [e][..0] == [];
  }

  /** A skipped event changes nothing: the run is as if it were not in the list. */
  lemma SkippedEventIsTransparent(ctx: Context, xs: seq<Event>, e: Event, ys: seq<Event>)
    requires HandleEvent(ctx, e).error.Some?
    ensures HandleAll(Handler(ctx), xs + [e] + ys) == HandleAll(Handler(ctx), xs + ys)
  {
    EventShape(ctx, e);
    var handle := Handler(ctx);
    assert handle(e) == HandleEvent(ctx, e);
    SilentEventIsTransparent(handle, xs, e, ys);
  }

  /** When each event's notices are its weekly posts, the same holds for the whole loop. */
  lemma {:induction false} NoticesFollowPosts(handle: Event -> EventResult, events: seq<Event>)
    requires forall i :: 0 <= i < |events| ==> handle(events[i]).notices == WeeklyTexts(handle(events[i]).posts)
    ensures HandleAll(handle, events).notices == WeeklyTexts(HandleAll(handle, events).posts)
  {
    if events != [] {
      var front := events[..|events| - 1];
      NoticesFollowPosts(handle, front);
      WeeklyTextsAppend(HandleAll(handle, front).posts, handle(events[|events| - 1]).posts);
    }
  }

  /** The summary list is exactly the weekly notices published, in the order published. */
  lemma NoticesAreWeeklyPosts(ctx: Context, events: seq<Event>)
    ensures HandleAll(Handler(ctx), events).notices == WeeklyTexts(HandleAll(Handler(ctx), events).posts)
  {
    var handle := Handler(ctx);
    forall i | 0 <= i < |events|
      ensures handle(events[i]).notices == WeeklyTexts(handle(events[i]).posts)
    {
      EventShape(ctx, events[i]);
    }
    NoticesFollowPosts(handle, events);
  }

  /**
   * The digest goes out, after every per-event message, exactly on the
   * summary day with summary enabled; it is sent to the summary webhook
   * without a thread and lists the weekly notices published in this run.
   */
  lemma DigestRule(c: Config, events: seq<Event>, today: int, dryRun: bool)
    requires ValidConfig(c) && c.discord.value.summary.Some? && c.discord.value.summary.value.daily.Some?
    ensures
      var summary := c.discord.value.summary.value;
      var sends := IsSummaryDay(today, summary.daily.value) && summary.enabled == Some(true);
      var pass := HandleAll(Handler(Context(c.events, today, c.discord.value.webhook.value, dryRun)), events);
      var r := RunSpec(c, events, today, dryRun);
      && |r.posts| == |pass.posts| + (if sends then 1 else 0)
      && r.posts[..|pass.posts|] == pass.posts
      && (sends ==> r.posts[|pass.posts|]
                    == Post(summary.webhook.value, DigestHeader + Join(WeeklyTexts(pass.posts), "\n"), None, DeliveryFor(dryRun)))
      && (r.status == Completed <==> !(IsSummaryDay(today, summary.daily.value) && summary.enabled.None?))
  {
    NoticesAreWeeklyPosts(Context(c.events, today, c.discord.value.webhook.value, dryRun), events);
  }

  /** With no events (a failed fetch) the summary day still sends the bare header. */
  lemma EmptyFetchSendsHeader(c: Config, today: int, dryRun: bool)
    requires ValidConfig(c) && c.discord.value.summary.Some?
    requires c.discord.value.summary.value.daily.Some? && c.discord.value.summary.value.enabled == Some(true)
    requires IsSummaryDay(today, c.discord.value.summary.value.daily.value)
    ensures RunSpec(c, [], today, dryRun).posts
         == [Post(c.discord.value.summary.value.webhook.value, DigestHeader, None, DeliveryFor(dryRun))]
  {
    DigestGrows([], "");
  }

  function AsLogged(posts: seq<Post>): (r: seq<Post>)
    ensures |r| == |posts|
    ensures forall i :: 0 <= i < |r| ==> r[i] == posts[i].(delivery := Logged)
  {
    seq(|posts|, i requires 0 <= i < |posts| => posts[i].(delivery := Logged))
  }

  lemma AsLoggedAppend(a: seq<Post>, b: seq<Post>)
    ensures AsLogged(a + b) == AsLogged(a) + AsLogged(b)
  {
  }

  /** The date tests in a dry run give the live posts, marked as logged, and the same notices. */
  lemma ScheduledDryRun(ctx: Context, e: Event, date: int, rule: Rule)
    ensures Scheduled(ctx.(dryRun := true), e, date, rule).posts == AsLogged(Scheduled(ctx.(dryRun := false), e, date, rule).posts)
    ensures Scheduled(ctx.(dryRun := true), e, date, rule).notices == Scheduled(ctx.(dryRun := false), e, date, rule).notices
  {
  }

  /** One event in a dry run publishes its live posts, marked as logged, and the same notices. */
  lemma EventDryRun(ctx: Context, e: Event)
    ensures HandleEvent(ctx.(dryRun := true), e).posts == AsLogged(HandleEvent(ctx.(dryRun := false), e).posts)
    ensures HandleEvent(ctx.(dryRun := true), e).notices == HandleEvent(ctx.(dryRun := false), e).notices
  {
    if e.localDate.Some? && ParseDate(e.localDate.value).Some? && e.name.Some? && ctx.rules.Some? {
      ScheduledDryRun(ctx, e, ToOrdinal(ParseDate(e.localDate.value).value), RuleFor(ctx.rules.value, e.name.value));
    }
  }

  /** When two handlers differ only in delivery mode, so do the loops built from them. */
  lemma {:induction false} LoggedPasses(dry: Event -> EventResult, live: Event -> EventResult, events: seq<Event>)
    requires forall i :: 0 <= i < |events| ==> dry(events[i]).posts == AsLogged(live(events[i]).posts)
    requires forall i :: 0 <= i < |events| ==> dry(events[i]).notices == live(events[i]).notices
    ensures HandleAll(dry, events).posts == AsLogged(HandleAll(live, events).posts)
    ensures HandleAll(dry, events).notices == HandleAll(live, events).notices
  {
    if events != [] {
      var front := events[..|events| - 1];
      LoggedPasses(dry, live, front);
      AsLoggedAppend(HandleAll(live, front).posts, live(events[|events| - 1]).posts);
    }
  }

  lemma HandleAllDryRun(ctx: Context, events: seq<Event>)
    ensures HandleAll(Handler(ctx.(dryRun := true)), events).posts == AsLogged(HandleAll(Handler(ctx.(dryRun := false)), events).posts)
    ensures HandleAll(Handler(ctx.(dryRun := true)), events).notices == HandleAll(Handler(ctx.(dryRun := false)), events).notices
  {
    var dry, live := Handler(ctx.(dryRun := true)), Handler(ctx.(dryRun := false));
    forall i | 0 <= i < |events|
      ensures dry(events[i]).posts == AsLogged(live(events[i]).posts)
      ensures dry(events[i]).notices == live(events[i]).notices
    {
      EventDryRun(ctx, events[i]);
    }
    LoggedPasses(dry, live, events);
  }

  /**
   * A dry run publishes the same messages, in the same order, with the same
   * outcome; none of them calls a webhook.
   */
  lemma DryRunOnlyLogs(c: Config, events: seq<Event>, today: int)
    ensures RunSpec(c, events, today, true).posts == AsLogged(RunSpec(c, events, today, false).posts)
    ensures RunSpec(c, events, today, true).status == RunSpec(c, events, today, false).status
    ensures forall p :: p in RunSpec(c, events, today, true).posts ==> p.delivery == Logged
  {
    if ValidConfig(c) && c.discord.value.summary.Some? {
      HandleAllDryRun(Context(c.events, today, c.discord.value.webhook.value, false), events);
    }
  }

  /** A rejected configuration, or one without a `summary` section, publishes nothing. */
  lemma EarlyExits(c: Config, events: seq<Event>, today: int, dryRun: bool)
    ensures !ValidConfig(c) ==> RunSpec(c, events, today, dryRun) == RunResult([], Rejected(ValidationError(c).value))
    ensures ValidConfig(c) && c.discord.value.summary.None?
            ==> RunSpec(c, events, today, dryRun) == RunResult([], Aborted(NoSummarySection))
  {
  }

  // A Sunday run (2024-06-02) with `daily: sunday` and one default rule that enables reminders.
  const ScenarioRules := [RuleEntry(DefaultKey, Rule(Some(true), None))]
  const ScenarioToday := 739039
  const GameNight := Event(Some("Game Night"), Some("2024-06-09"), Some("19:00"), Some("game-link"), Some(12))
  const BookClub := Event(Some("Book Club"), Some("2024-06-04"), Some("18:30"), Some("book-link"), Some(5))

  /** Sunday 2024-06-02 is the scenario's today; its two events fall seven and two days later. */
  lemma ScenarioOrdinals()
    ensures ToOrdinal(Date(2024, 6, 2)) == ScenarioToday && Weekday(ScenarioToday) == 6
    ensures ToOrdinal(Date(2024, 6, 9)) == ScenarioToday + 7
    ensures ToOrdinal(Date(2024, 6, 4)) == ScenarioToday + 2
  {
  }

  /** "2024-06-09" is the formatted 9 June 2024. */
  lemma GameNightText()
    ensures FormatDate(Date(2024, 6, 9)) == "2024-06-09"
  {
  }

  /** "2024-06-04" is the formatted 4 June 2024. */
  lemma BookClubText()
    ensures FormatDate(Date(2024, 6, 4)) == "2024-06-04"
  {
  }

  lemma GameNightDate()
    ensures ParseDate("2024-06-09") == Some(Date(2024, 6, 9))
  {
    GameNightText();
    ParseFormat(Date(2024, 6, 9));
  }

  lemma BookClubDate()
    ensures ParseDate("2024-06-04") == Some(Date(2024, 6, 4))
  {
    BookClubText();
    ParseFormat(Date(2024, 6, 4));
  }

  /** "Game Night" a week out gets the weekly notice, on the default rule's (absent) thread. */
  lemma GameNightOutcome(ctx: Context, e: Event)
    requires ctx == Context(Some(ScenarioRules), ScenarioToday, "main-hook", false)
    requires e == GameNight
    ensures HandleEvent(ctx, e)
         == var notice := WeeklyMessage(e, ScenarioToday + 7).value;
            EventResult([Post("main-hook", notice, None, Executed)], [notice], None)
  {
    GameNightDate();
    ScenarioOrdinals();
    NoMatchFallsBack(ScenarioRules, "Game Night");
    DefaultEntry(ScenarioRules, 0);
    CompleteEventOutcome(ctx, e, Date(2024, 6, 9));
  }

  /** "Book Club" two days out gets neither a notice nor a reminder. */
  lemma BookClubOutcome(ctx: Context, e: Event)
    requires ctx == Context(Some(ScenarioRules), ScenarioToday, "main-hook", false)
    requires e == BookClub
    ensures HandleEvent(ctx, e) == EventResult([], [], None)
  {
    BookClubDate();
    ScenarioOrdinals();
    CompleteEventOutcome(ctx, e, Date(2024, 6, 4));
  }

  /** The loop over two events publishes the first one's posts, then the second's. */
  lemma HandleAllPair(handle: Event -> EventResult, a: Event, b: Event)
    ensures HandleAll(handle, [a, b]) == Pass(handle(a).posts + handle(b).posts, handle(a).notices + handle(b).notices)
  {
    assert [a, b][..1] == [a];
    assert [a][..0] == [];
    assert [] + handle(a).posts == handle(a).posts && [] + handle(a).notices == handle(a).notices;
    assert HandleAll(handle, [a]) == Pass(handle(a).posts, handle(a).notices);
  }

  /** The event loop of the Sunday run publishes and collects only the Game Night notice. */
  lemma ScenarioLoop(ctx: Context, events: seq<Event>)
    requires ctx == Context(Some(ScenarioRules), ScenarioToday, "main-hook", false)
    requires events == [GameNight, BookClub]
    ensures
      var notice := WeeklyMessage(events[0], ScenarioToday + 7).value;
      HandleAll(Handler(ctx), events) == Pass([Post("main-hook", notice, None, Executed)], [notice])
  {
    GameNightOutcome(ctx, events[0]);
    BookClubOutcome(ctx, events[1]);
    HandleAllPair(Handler(ctx), events[0], events[1]);
  }

  /**
   * The whole Sunday run: only the Game Night notice is published, and the
   * digest, which follows it, lists only that notice.
   */
  lemma SundayScenario(cfg: Config, events: seq<Event>)
    requires cfg == Config(
      Some(Discord(Some("main-hook"), Some(Summary(Some(true), Some("summary-hook"), Some("sunday"))))),
      Some(Meetup(Some("group"))),
      Some(ScenarioRules))
    requires events == [GameNight, BookClub]
    ensures
      var notice := WeeklyMessage(events[0], ScenarioToday + 7).value;
      RunSpec(cfg, events, ScenarioToday, false)
        == RunResult([Post("main-hook", notice, None, Executed),
                      Post("summary-hook", DigestHeader + notice, None, Executed)], Completed)
  {
    var ctx := Context(cfg.events, ScenarioToday, "main-hook", false);
    assert ValidationError(cfg) == None;
    ScenarioLoop(ctx, events);
    ScenarioOrdinals();
    SummaryDayByName(ScenarioToday, "sunday");
    var notice := WeeklyMessage(events[0], ScenarioToday + 7).value;
    DigestGrows([], notice);
    var pass := HandleAll(Handler(ctx), events);
    assert pass.notices == [notice];
    assert RunSpec(cfg, events, ScenarioToday, false) == RunResult(pass.posts + [Post("summary-hook", DigestMessage(pass.notices), None, Executed)], Completed);
  }
}
