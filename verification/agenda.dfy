/** One run of the daily agenda job: the configuration guards, the pure
    middle (today's window, filter, stable sort, message) and the request
    that would be posted to the Telegram Bot API. Fetching the feed, parsing
    it and reading the clock happen outside and arrive as parameters. */
module Agenda {
  import opened Events
  import opened Instant
  import opened Civil
  import opened DayFilter
  import opened StableSort
  import opened Formatter
  import opened Decimal

  /** Today's events in the order they are listed: the feed's events that
      start during the UTC day of `now`, sorted by start, ties in feed order. */
  function TodaysEvents(feed: seq<Event>, now: int): (r: seq<Event>)
    ensures Sorted(r)
    ensures forall e :: e in r <==> e in feed && Contains(Today(now), e.begin)
    ensures multiset(r) == multiset(Filter(feed, Today(now)))
    ensures forall t :: StartingAt(r, t) == StartingAt(Filter(feed, Today(now)), t)
  {
    var kept := Filter(feed, Today(now));
    SortMembers(kept);
    forall t
      ensures StartingAt(Sort(kept), t) == StartingAt(kept, t)
    {
      SortStable(kept, t);
    }
    Sort(kept)
  }

  /** The text the job sends for `feed` at instant `now`. */
  function AgendaMessage(feed: seq<Event>, now: int): string
    requires InDatetimeRange(now)
  {
    Message(TodaysEvents(feed, now), UtcDate(now))
  }

  /** The fixed "nothing today" text is sent exactly when no event of the
      feed starts today. */
  lemma NothingTodayIff(feed: seq<Event>, now: int)
    requires InDatetimeRange(now)
    ensures AgendaMessage(feed, now) == NoEventsMessage <==>
            forall e :: e in feed ==> !Contains(Today(now), e.begin)
  {
    var today := TodaysEvents(feed, now);
    MessageEmptyIff(today, UtcDate(now));
    if |today| > 0 {
      assert today[0] in today;
    }
  }

  /** The date in the header is the calendar date of the day being listed. */
  lemma HeaderDateIsToday(feed: seq<Event>, now: int)
    requires InDatetimeRange(now)
    requires exists e :: e in feed && Contains(Today(now), e.begin)
    ensures var d := UtcDate(now);
      && AgendaMessage(feed, now) == Header(d) + Blocks(TodaysEvents(feed, now))
      && DayNumber(d) * MicrosPerDay == Today(now).start
  {
    var e :| e in feed && Contains(Today(now), e.begin);
    assert e in TodaysEvents(feed, now);
  }

  /** A feed whose only event starts today is listed as that one event. */
  lemma SingleEventToday(now: int, e: Event)
    requires Contains(Today(now), e.begin)
    ensures TodaysEvents([e], now) == [e]
  {
    assert Filter([e], Today(now)) == [e] by {
      assert [e][..0] == [];
    }
    SortSingle(e);
  }

  /** 14:30 on a UTC clock is shown as "14:30". */
  lemma HalfPastTwoText(now: int, e: Event)
    requires e.begin == Today(now).start + 870 * MicrosPerMinute && e.utcOffset == 0
    ensures ClockText(e) == "14:30"
  {
    LocalMinuteAt(e.begin, 0, Today(now).start / MicrosPerDay, 870);
    assert TwoDigits(14) == "14" && TwoDigits(30) == "30";
  }

  lemma StandupBlock(now: int, e: Event)
    requires e == Event(Today(now).start + 870 * MicrosPerMinute, 0, Some("Standup"), None)
    ensures Block(e) == [AlarmClockSign] + " 14:30 - *Standup*\n" + "\n"
  {
    HalfPastTwoText(now, e);
  }

  /** An event starting at 14:30 UTC today, without a location, is listed as
      the line "14:30 - *Standup*" after the alarm clock sign, followed by
      the blank line and nothing else. */
  lemma StandupScenario(now: int)
    requires InDatetimeRange(now)
    ensures var e := Event(Today(now).start + 870 * MicrosPerMinute, 0, Some("Standup"), None);
      AgendaMessage([e], now) == Header(UtcDate(now)) + ([AlarmClockSign] + " 14:30 - *Standup*\n" + "\n")
  {
    var e := Event(Today(now).start + 870 * MicrosPerMinute, 0, Some("Standup"), None);
    SingleEventToday(now, e);
    ConcatSingle(e, Block);
    StandupBlock(now, e);
  }

  lemma YesterdayDropped(now: int, yesterday: Event, today: Event)
    requires yesterday.begin < Today(now).start
    requires Contains(Today(now), today.begin)
    ensures TodaysEvents([yesterday, today], now) == [today]
  {
    var w := Today(now);
    FilterConcat([yesterday], [today], w);
    assert [yesterday] + [today] == [yesterday, today];
    assert Filter([yesterday], w) == [] by {
      assert [yesterday][..0] == [];
    }
    assert Filter([today], w) == [today] by {
      assert [today][..0] == [];
    }
    assert Filter([yesterday, today], w) == [today];
    SortSingle(today);
  }

  /** With one event yesterday and one today, only today's is listed. */
  lemma YesterdayAndTodayScenario(now: int, yesterday: Event, today: Event)
    requires InDatetimeRange(now)
    requires Today(now).start - MicrosPerDay <= yesterday.begin < Today(now).start
    requires Contains(Today(now), today.begin)
    ensures AgendaMessage([yesterday, today], now) == Message([today], UtcDate(now))
  {
    YesterdayDropped(now, yesterday, today);
  }

  /** The day is chosen in UTC but the time is shown on the event's own
      clock: an event at 01:00 UTC today written at UTC-03:00 is listed
      today, and shown as "22:00", a time of the previous local day. */
  lemma LocalClockOfUtcDay(now: int, e: Event)
    requires e.begin == Today(now).start + 60 * MicrosPerMinute
    requires e.utcOffset == -180 * MicrosPerMinute
    ensures e in TodaysEvents([e], now)
    ensures ClockText(e) == "22:00"
  {
    SingleEventToday(now, e);
    LocalMinuteAt(e.begin, e.utcOffset, Today(now).start / MicrosPerDay - 1, 1320);
    assert TwoDigits(22) == "22" && TwoDigits(0) == "00";
  }

  /** The three environment variables the job reads; each may be unset. */
  datatype Config = Config(botToken: Option<string>, chatId: Option<string>, feedUrl: Option<string>)

  /** A `sendMessage` call of the Telegram Bot API with a JSON body. */
  datatype SendRequest = SendRequest(url: string, chatId: string, text: string, parseMode: string)

  const ApiPrefix: string := "https://api.telegram.org/bot"
  const ApiSuffix: string := "/sendMessage"

  /** The request the notifier posts, or none when the bot token or the chat
      id is unset or empty. */
  function SendMessage(cfg: Config, message: string): (r: Option<SendRequest>)
    ensures r.Some? <==> Truthy(cfg.botToken) && Truthy(cfg.chatId)
    ensures r.Some? ==> r.value.text == message && r.value.chatId == cfg.chatId.value
    ensures r.Some? ==> r.value.parseMode == "Markdown"
    ensures r.Some? ==> var u := r.value.url;
      && |u| == |ApiPrefix| + |cfg.botToken.value| + |ApiSuffix|
      && u[..|ApiPrefix|] == ApiPrefix
      && u[|ApiPrefix|..|u| - |ApiSuffix|] == cfg.botToken.value
      && u[|u| - |ApiSuffix|..] == ApiSuffix
  {
    if !Truthy(cfg.botToken) || !Truthy(cfg.chatId) then None
    else
      var token := cfg.botToken.value;
      var url := ApiPrefix + token + ApiSuffix;
      assert url[..|ApiPrefix|] == ApiPrefix;
      assert url[|ApiPrefix|..|url| - |ApiSuffix|] == token;
      assert url[|url| - |ApiSuffix|..] == ApiSuffix;
      Some(SendRequest(url, cfg.chatId.value, message, "Markdown"))
  }

  /** What downloading and parsing the feed produced: its events, or a
      failure raised by the HTTP client or the parser. */
  datatype FeedResult = Parsed(events: seq<Event>) | FetchOrParseFailed

  /** How a run ends: stopped for want of a feed URL, aborted by a failure
      while fetching or parsing, or completed with the message built and the
      request posted, if any. */
  datatype RunOutcome = NoFeedUrl | Failed | Completed(message: string, request: Option<SendRequest>)

  function Run(cfg: Config, feed: FeedResult, now: int): (r: RunOutcome)
    requires InDatetimeRange(now)
    ensures r == NoFeedUrl <==> !Truthy(cfg.feedUrl)
    ensures r == Failed <==> Truthy(cfg.feedUrl) && feed.FetchOrParseFailed?
    ensures r.Completed? ==> feed.Parsed? && r.message == AgendaMessage(feed.events, now)
    ensures r.Completed? ==> (r.request.Some? <==> Truthy(cfg.botToken) && Truthy(cfg.chatId))
    ensures r.Completed? && r.request.Some? ==> r.request.value.text == r.message
  {
    if !Truthy(cfg.feedUrl) then NoFeedUrl
    else match feed
      case FetchOrParseFailed => Failed
      case Parsed(events) =>
        var message := AgendaMessage(events, now);
        Completed(message, SendMessage(cfg, message))
  }
}
