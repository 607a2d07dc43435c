/**
 * The already-loaded configuration: the keys the runner reads, each one that
 * may be absent as an `Option` (absence is what turns a lookup into a
 * KeyError), the three checks of `validate_config`, the first-match rule
 * lookup `get_event_config`, and the summary-day test `is_summary_day`.
 */
module Configuration {
  import opened Wrappers
  import opened Text
  import opened Dates

  /** One `events.<pattern>` entry: `reminder` and `thread_id`, each optional. */
  datatype Rule = Rule(reminder: Option<bool>, threadId: Option<string>)

  /** The empty mapping `{}` that stands in when no rule applies. */
  const NoRule := Rule(None, None)

  /** The `events` mapping keeps the order in which its keys were written. */
  datatype RuleEntry = RuleEntry(pattern: string, rule: Rule)

  datatype Summary = Summary(enabled: Option<bool>, webhook: Option<string>, daily: Option<string>)

  datatype Discord = Discord(webhook: Option<string>, summary: Option<Summary>)

  datatype Meetup = Meetup(group: Option<string>)

  datatype Config = Config(discord: Option<Discord>, meetup: Option<Meetup>, events: Option<seq<RuleEntry>>)

  datatype ConfigError = MissingWebhook | MissingGroup | MissingSummaryWebhook

  /** The key of the fallback rule; it is never used as a pattern. */
  const DefaultKey := "default"

  predicate HasWebhook(c: Config) {
    c.discord.Some? && c.discord.value.webhook.Some?
  }

  predicate HasGroup(c: Config) {
    c.meetup.Some? && c.meetup.value.group.Some?
  }

  /** `discord.summary.enabled`, read with `.get(..., False)` at each level. */
  predicate SummaryEnabled(c: Config) {
    c.discord.Some? && c.discord.value.summary.Some? && c.discord.value.summary.value.enabled == Some(true)
  }

  predicate HasSummaryWebhook(c: Config) {
    c.discord.Some? && c.discord.value.summary.Some? && c.discord.value.summary.value.webhook.Some?
  }

  /**
   * `validate_config`: the first of its three checks that fails, or `None`
   * when the configuration is accepted. The checks run in order, so each
   * error also says that the earlier checks passed.
   */
  function ValidationError(c: Config): (r: Option<ConfigError>)
    ensures r == None <==> HasWebhook(c) && HasGroup(c) && (SummaryEnabled(c) ==> HasSummaryWebhook(c))
    ensures r == Some(MissingWebhook) <==> !HasWebhook(c)
    ensures r == Some(MissingGroup) <==> HasWebhook(c) && !HasGroup(c)
    ensures r == Some(MissingSummaryWebhook) <==> HasWebhook(c) && HasGroup(c) && SummaryEnabled(c) && !HasSummaryWebhook(c)
  {
    match c.discord
    case None => Some(MissingWebhook)
    case Some(discord) =>
      if discord.webhook.None? then Some(MissingWebhook)
      else if c.meetup.None? || c.meetup.value.group.None? then Some(MissingGroup)
      else match discord.summary
        case None => None
        case Some(summary) =>
          if summary.enabled == Some(true) && summary.webhook.None? then Some(MissingSummaryWebhook) else None
  }

  /** `validate_config` as a predicate: the run goes on only when this holds. */
  predicate ValidConfig(c: Config) {
    ValidationError(c).None?
  }

  /** Pattern `pattern` claims the event called `name`. */
  predicate Selects(pattern: string, name: string) {
    pattern != DefaultKey && Contains(name, pattern)
  }

  /** The position of the first entry whose pattern claims `name`, in configuration order. */
  function FirstPattern(entries: seq<RuleEntry>, name: string): (r: Option<nat>)
    ensures r.Some? ==> r.value < |entries| && Selects(entries[r.value].pattern, name)
    ensures r.Some? ==> forall j :: 0 <= j < r.value ==> !Selects(entries[j].pattern, name)
    ensures r.None? ==> forall j :: 0 <= j < |entries| ==> !Selects(entries[j].pattern, name)
  {
    if entries == [] then None
    else if Selects(entries[0].pattern, name) then Some(0)
    else match FirstPattern(entries[1..], name)
      case None => None
      case Some(i) => Some(i + 1)
  }

  /** The position of the first entry with key `key` (a mapping has at most one). */
  function KeyIndex(entries: seq<RuleEntry>, key: string): (r: Option<nat>)
    ensures r.Some? ==> r.value < |entries| && entries[r.value].pattern == key
    ensures r.Some? ==> forall j :: 0 <= j < r.value ==> entries[j].pattern != key
    ensures r.None? ==> forall j :: 0 <= j < |entries| ==> entries[j].pattern != key
  {
    if entries == [] then None
    else if entries[0].pattern == key then Some(0)
    else match KeyIndex(entries[1..], key)
      case None => None
      case Some(i) => Some(i + 1)
  }

  /** `events.get("default", {})`. */
  function DefaultRule(entries: seq<RuleEntry>): Rule {
    match KeyIndex(entries, DefaultKey)
    case Some(i) => entries[i].rule
    case None => NoRule
  }

  /** The rule `get_event_config` returns: first claiming pattern, else the default. */
  function RuleFor(entries: seq<RuleEntry>, name: string): Rule {
    match FirstPattern(entries, name)
    case Some(i) => entries[i].rule
    case None => DefaultRule(entries)
  }

  /** When several patterns occur in the name, the first one written wins. */
  lemma FirstMatchWins(entries: seq<RuleEntry>, name: string, i: nat)
    requires i < |entries| && Selects(entries[i].pattern, name)
    requires forall j :: 0 <= j < i ==> !Selects(entries[j].pattern, name)
    ensures RuleFor(entries, name) == entries[i].rule
  {
    var k := FirstPattern(entries, name);
    assert k.Some?;
    assert !(k.value < i) && !(i < k.value);
  }

  /** The `default` entry's rule; the empty rule when the mapping has no `default` key. */
  lemma DefaultEntry(entries: seq<RuleEntry>, j: nat)
    requires j < |entries| && entries[j].pattern == DefaultKey
    requires forall l :: 0 <= l < j ==> entries[l].pattern != DefaultKey
    ensures DefaultRule(entries) == entries[j].rule
  {
    var d := KeyIndex(entries, DefaultKey);
    assert d.Some?;
    assert !(d.value < j) && !(j < d.value);
  }

  /**
   * Without a claiming pattern the rule is the default one. A `default` key is
   * never taken as a pattern, even when the word occurs in the event name.
   */
  lemma NoMatchFallsBack(entries: seq<RuleEntry>, name: string)
    requires forall j :: 0 <= j < |entries| ==> entries[j].pattern == DefaultKey || !Contains(name, entries[j].pattern)
    ensures RuleFor(entries, name) == DefaultRule(entries)
    ensures (forall j :: 0 <= j < |entries| ==> entries[j].pattern != DefaultKey) ==> RuleFor(entries, name) == NoRule
  {
  }

  /** "foo" does not occur in "bar night", which has no letter f. */
  lemma FooNotInBarNight()
    ensures !Contains("bar night", "foo")
  {
    ContainsIffOccurs("bar night", "foo");
    forall i | OccursAt("bar night", "foo", i) ensures "bar night"[i] == 'f' {
      assert "bar night"[i..i + 3][0] == 'f';
    }
    forall i | 0 <= i < 9 ensures "bar night"[i] != 'f' {
    }
  }

  /** Rules `foo` then `default`: "foobar night" takes `foo`, "bar night" takes `default`. */
  lemma PatternExample(foo: Rule, fallback: Rule)
    ensures RuleFor([RuleEntry("foo", foo), RuleEntry(DefaultKey, fallback)], "foobar night") == foo
    ensures RuleFor([RuleEntry("foo", foo), RuleEntry(DefaultKey, fallback)], "bar night") == fallback
  {
    var entries := [RuleEntry("foo", foo), RuleEntry(DefaultKey, fallback)];
    assert "foobar night"[..3] == "foo";
    FirstMatchWins(entries, "foobar night", 0);
    FooNotInBarNight();
    NoMatchFallsBack(entries, "bar night");
    DefaultEntry(entries, 1);
  }

  /** `get_event_config`: scan the patterns in order, return at the first that occurs in the name. */
  method GetEventConfig(entries: seq<RuleEntry>, name: string) returns (rule: Rule)
    ensures rule == RuleFor(entries, name)
  {
    for i := 0 to |entries|
      invariant forall j :: 0 <= j < i ==> !Selects(entries[j].pattern, name)
    {
      if entries[i].pattern != DefaultKey && Contains(name, entries[i].pattern) {
        FirstMatchWins(entries, name, i);
        return entries[i].rule;
      }
    }
    rule := DefaultRule(entries);
  }

  /** `rule.get('reminder', False)`: an absent key means no reminder. */
  predicate Reminds(rule: Rule) {
    rule.reminder == Some(true)
  }

  const LowerDayNames: seq<string> := ["monday", "tuesday", "wednesday", "thursday", "friday", "saturday", "sunday"]

  /** `is_summary_day`: today's weekday name, lower-cased, equals the configured `daily` as written. */
  predicate IsSummaryDay(today: int, daily: string) {
    Lower(DayName(Weekday(today))) == daily
  }

  lemma LowerDayName(w: int)
    requires 0 <= w < 7
    ensures Lower(DayName(w)) == LowerDayNames[w]
  {
    if w == 0 { assert LowerChar('M') == 'm'; }
    else if w == 1 || w == 3 { assert LowerChar('T') == 't'; }
    else if w == 2 { assert LowerChar('W') == 'w'; }
    else if w == 4 { assert LowerChar('F') == 'f'; }
    else { assert LowerChar('S') == 's'; }
  }

  /** The summary day holds exactly when `daily` is the lower-case English name of today's weekday. */
  lemma SummaryDayByName(today: int, daily: string)
    ensures IsSummaryDay(today, daily) <==> daily == LowerDayNames[Weekday(today)]
  {
    LowerDayName(Weekday(today));
  }

  /** A `daily` value with a capital letter ("Sunday") never matches: it is not lower-cased. */
  lemma CapitalisedDailyNeverMatches(today: int, daily: string, k: nat)
    requires k < |daily| && IsUpper(daily[k])
    ensures !IsSummaryDay(today, daily)
  {
    var actual := Lower(DayName(Weekday(today)));
    if k < |actual| {
      assert !IsUpper(actual[k]);
    }
  }

  /** Once a day is the summary day, the next six are not. */
  lemma SummaryDayOncePerWeek(today: int, daily: string, k: int)
    requires IsSummaryDay(today, daily) && 0 < k < 7
    ensures !IsSummaryDay(today + k, daily)
  {
    SummaryDayByName(today, daily);
    SummaryDayByName(today + k, daily);
    assert Weekday(today + k) != Weekday(today);
  }
}
