/**
 * The event record as the events API delivers it and the three message
 * texts: the weekly notice (`build_weekly_msg`), the same-day reminder
 * (`build_reminder_msg`) and the digest. A key the template needs that the
 * event lacks raises KeyError; here that is `Err` naming the first missing
 * field in the order the template reads them.
 */
module Messages {
  import opened Wrappers
  import opened Text
  import opened Dates

  /** The fields of one event the runner reads; any of them may be absent. */
  datatype Event = Event(
    name: Option<string>,
    localDate: Option<string>,
    localTime: Option<string>,
    link: Option<string>,
    yesRsvpCount: Option<int>)

  datatype Field = Name | LocalDate | LocalTime | Link | YesRsvpCount

  const WeeklyLead := "Don't forget to sign up for "
  const ReminderLead := "Join us today at "
  const DigestHeader := "Upcoming Events This Week:\n"

  /**
   * `build_weekly_msg(event, event_date)`: the sign-up notice naming the
   * event, the English weekday of `date` (a day ordinal) and the RSVP link.
   */
  function WeeklyMessage(e: Event, date: int): (r: Result<string, Field>)
    ensures r.Err? <==> e.name.None? || e.link.None?
    ensures r.Err? ==> r.error == (if e.name.None? then Name else Link)
    ensures r.Ok? ==> IsPrefix(WeeklyLead + e.name.value + " on " + DayName(Weekday(date)) + ".\n", r.value)
    ensures r.Ok? ==> IsSuffix("RSVP here: <" + e.link.value + ">", r.value)
    ensures r.Ok? ==> |r.value| == |WeeklyLead + e.name.value + " on " + DayName(Weekday(date)) + ".\n"|
                                   + |"RSVP here: <" + e.link.value + ">"|
  {
    match e.name
    case None => Err(Name)
    case Some(name) =>
      match e.link
      case None => Err(Link)
      case Some(link) =>
        var text := WeeklyLead + name + " on " + DayName(Weekday(date)) + ".\nRSVP here: <" + link + ">";
        assert text == (WeeklyLead + name + " on " + DayName(Weekday(date)) + ".\n") + ("RSVP here: <" + link + ">");
        Ok(text)
  }

  /** The first field the reminder template reads that the event lacks. */
  function FirstMissing(e: Event): Field {
    if e.localTime.None? then LocalTime
    else if e.name.None? then Name
    else if e.yesRsvpCount.None? then YesRsvpCount
    else Link
  }

  /**
   * `build_reminder_msg(event)`: start time, name, the attendance count as
   * Python's `str` writes it, and the sign-up link.
   */
  function ReminderMessage(e: Event): (r: Result<string, Field>)
    ensures r.Err? <==> e.localTime.None? || e.name.None? || e.yesRsvpCount.None? || e.link.None?
    ensures r.Err? ==> r.error == FirstMissing(e)
    ensures r.Ok? ==> IsPrefix(ReminderLead + e.localTime.value + " for " + e.name.value + ".\n"
                               + IntToString(e.yesRsvpCount.value) + " people attending so far!", r.value)
    ensures r.Ok? ==> IsSuffix(" Sign up: <" + e.link.value + ">", r.value)
    ensures r.Ok? ==> |r.value| == |ReminderLead + e.localTime.value + " for " + e.name.value + ".\n"
                                    + IntToString(e.yesRsvpCount.value) + " people attending so far!"|
                                   + |" Sign up: <" + e.link.value + ">"|
  {
    match e.localTime
    case None => Err(LocalTime)
    case Some(time) =>
      match e.name
      case None => Err(Name)
      case Some(name) =>
        match e.yesRsvpCount
        case None => Err(YesRsvpCount)
        case Some(count) =>
          match e.link
          case None => Err(Link)
          case Some(link) =>
            var head := ReminderLead + time + " for " + name + ".\n" + IntToString(count) + " people attending so far!";
            var text := head + " Sign up: <" + link + ">";
            assert text == head + (" Sign up: <" + link + ">");
            Ok(text)
  }

  /** The digest: the header, then the collected notices joined by newlines. */
  function DigestMessage(notices: seq<string>): string {
    DigestHeader + Join(notices, "\n")
  }

  /** The weekly notice depends on the date only through its weekday. */
  lemma WeeklyMessageWeekLater(e: Event, date: int)
    ensures WeeklyMessage(e, date + 7) == WeeklyMessage(e, date)
  {
    WeekdayCycle(date);
  }

  /** A reminder and a digest never read as a weekly notice: they start differently. */
  lemma KindsDiffer(e: Event, notices: seq<string>)
    ensures ReminderMessage(e).Ok? ==> !IsPrefix(WeeklyLead, ReminderMessage(e).value)
    ensures !IsPrefix(WeeklyLead, DigestMessage(notices))
  {
    if ReminderMessage(e).Ok? {
      var text := ReminderMessage(e).value;
      var head := ReminderLead + e.localTime.value + " for " + e.name.value + ".\n"
                  + IntToString(e.yesRsvpCount.value) + " people attending so far!";
      assert IsPrefix(head, text);
      assert text[0] == head[0] == 'J';
    }
    var digest := DigestMessage(notices);
    assert digest[0] == DigestHeader[0] == 'U';
  }

  /** An empty digest is the bare header; each further notice adds a line. */
  lemma {:induction false} DigestGrows(notices: seq<string>, notice: string)
    ensures DigestMessage([]) == DigestHeader
    ensures DigestMessage(notices + [notice])
         == DigestMessage(notices) + (if notices == [] then "" else "\n") + notice
  {
    JoinAppend(notices, notice, "\n");
  }
}
