/** The agenda message sent to the chat: a fixed text when there is nothing
    today, otherwise a dated header followed by one block per event. */
module Formatter {
  import opened Events
  import opened Instant
  import opened Civil
  import opened Decimal

  const CalendarSign: char := '\U{1F4C5}'   // calendar emoji
  const AlarmClockSign: char := '\U{23F0}'  // alarm clock emoji
  const PinSign: char := '\U{1F4CD}'        // round pushpin emoji
  const PartySign: char := '\U{1F389}'      // party popper emoji

  const NoEventsMessage: string := [CalendarSign] + " *Agenda de Hoje*\n\nNenhum compromisso para hoje! " + [PartySign]

  predicate PrintableDate(d: Date) {
    ValidDate(d) && 1 <= d.year <= 9999
  }

  /** `strftime('%d/%m/%Y')`: day and month on two digits, year on four. */
  function DateText(d: Date): string
    requires PrintableDate(d)
  {
    TwoDigits(d.day) + "/" + TwoDigits(d.month) + "/" + Padded(d.year, 4)
  }

  /** The date text is ten characters, slashes at the third and sixth, and
      its three digit groups read back as day, month and year. */
  lemma DateTextRoundTrip(d: Date)
    requires PrintableDate(d)
    ensures var s := DateText(d);
      && |s| == 10 && s[2] == '/' && s[5] == '/'
      && AllDigits(s[..2]) && AllDigits(s[3..5]) && AllDigits(s[6..])
      && Value(s[..2]) == d.day && Value(s[3..5]) == d.month && Value(s[6..]) == d.year
  {
    TwoDigitsRoundTrip(d.day);
    TwoDigitsRoundTrip(d.month);
    PaddedRoundTrip(d.year, 4);
    var dd, mm, yyyy := TwoDigits(d.day), TwoDigits(d.month), Padded(d.year, 4);
    var s := dd + "/" + mm + "/" + yyyy;
    assert s[..2] == dd && s[3..5] == mm && s[6..] == yyyy;
  }

  function Header(d: Date): string
    requires PrintableDate(d)
  {
    [CalendarSign] + " *Agenda de Hoje (" + DateText(d) + ")*\n\n"
  }

  /** Arrow's `format('HH:mm')` of the start, read on the event's own clock. */
  function ClockText(e: Event): string {
    var m := LocalMinuteOfDay(e.begin, e.utcOffset);
    TwoDigits(m / 60) + ":" + TwoDigits(m % 60)
  }

  /** The clock text is two digits of hour, a colon, two digits of minute,
      and reads back as the minute of the local day at which the event
      starts: the start instant shifted by the event's own UTC offset. */
  lemma ClockTextMeaning(e: Event)
    ensures var s := ClockText(e);
      && |s| == 5 && s[2] == ':'
      && AllDigits(s[..2]) && AllDigits(s[3..])
      && Value(s[..2]) < 24 && Value(s[3..]) < 60
      && Value(s[..2]) * 60 + Value(s[3..]) == LocalMinuteOfDay(e.begin, e.utcOffset)
  {
    var m := LocalMinuteOfDay(e.begin, e.utcOffset);
    TwoDigitsRoundTrip(m / 60);
    TwoDigitsRoundTrip(m % 60);
    var hh, mm := TwoDigits(m / 60), TwoDigits(m % 60);
    var s := hh + ":" + mm;
    assert s[..2] == hh && s[3..] == mm;
  }

  /** How an f-string shows a name that may be `None`. */
  function NameText(name: Option<string>): string {
    match name
    case Some(n) => n
    case None => "None"
  }

  function TimeLine(e: Event): string {
    [AlarmClockSign] + " " + ClockText(e) + " - *" + NameText(e.name) + "*\n"
  }

  function LocationLine(e: Event): string {
    if Truthy(e.location) then [PinSign] + " " + e.location.value + "\n" else ""
  }

  function Block(e: Event): string {
    TimeLine(e) + LocationLine(e) + "\n"
  }

  /** The blocks of `events`, in list order. */
  function Blocks(events: seq<Event>): string {
    Concat(events, Block)
  }

  /** The strings `f` gives for the elements of `xs`, joined in order. */
  function Concat<T>(xs: seq<T>, f: T -> string): string {
    if |xs| == 0 then ""
    else Concat(xs[..|xs| - 1], f) + f(xs[|xs| - 1])
  }

  function Message(events: seq<Event>, d: Date): string
    requires PrintableDate(d)
  {
    if |events| == 0 then NoEventsMessage else Header(d) + Blocks(events)
  }

  /** The construction at main_ical.py:57-68: the fixed text, or the header
      followed by each event's lines appended in turn. */
  method BuildMessage(events: seq<Event>, d: Date) returns (message: string)
    requires PrintableDate(d)
    ensures message == Message(events, d)
  {
    if |events| == 0 {
      message := NoEventsMessage;
    } else {
      message := Header(d);
      for i := 0 to |events|
        invariant message == Header(d) + Blocks(events[..i])
      {
        ghost var done := Blocks(events[..i]);
        message := AppendEvent(message, events[i]);
        BlocksSnoc(events, i);
        AppendAssociates(Header(d), done, Block(events[i]));
      }
      assert events[..|events|] == events;
    }
  }

  /** One turn of the loop at main_ical.py:61-68: the time line, the
      location line when the location is truthy, then a blank line. */
  method AppendEvent(message: string, e: Event) returns (extended: string)
    ensures extended == message + Block(e)
  {
    var timeStr := ClockText(e);
    extended := message + ([AlarmClockSign] + " " + timeStr + " - *" + NameText(e.name) + "*\n");
    if Truthy(e.location) {
      extended := extended + ([PinSign] + " " + e.location.value + "\n");
    }
    extended := extended + "\n";
  }

  lemma AppendAssociates(a: string, b: string, c: string)
    ensures a + b + c == a + (b + c)
  {
  }

  lemma BlocksSnoc(events: seq<Event>, i: int)
    requires 0 <= i < |events|
    ensures Blocks(events[..i + 1]) == Blocks(events[..i]) + Block(events[i])
  {
    assert events[..i + 1][..i] == events[..i];
  }

  lemma ConcatSingle<T>(x: T, f: T -> string)
    ensures Concat([x], f) == f(x)
  {
    assert [x][..0] == [];
  }

  lemma {:induction false} ConcatAppend<T>(a: seq<T>, b: seq<T>, f: T -> string)
    ensures Concat(a + b, f) == Concat(a, f) + Concat(b, f)
    decreases |b|
  {
    if |b| == 0 {
      assert a + b == a;
    } else {
      var n := |b| - 1;
      var ab := a + b;
      assert ab[..|ab| - 1] == a + b[..n];
      assert ab[|ab| - 1] == b[n];
      ConcatAppend(a, b[..n], f);
    }
  }

  lemma BlocksConcat(a: seq<Event>, b: seq<Event>)
    ensures Blocks(a + b) == Blocks(a) + Blocks(b)
  {
    ConcatAppend(a, b, Block);
  }

  /** The fixed text appears exactly when there is nothing to list: a
      non-empty agenda always carries the dated header, which differs from
      the fixed text at the character after "Hoje". */
  lemma MessageEmptyIff(events: seq<Event>, d: Date)
    requires PrintableDate(d)
    ensures Message(events, d) == NoEventsMessage <==> |events| == 0
  {
    if |events| > 0 {
      var m := Message(events, d);
      assert m[17] == ' ';
      assert NoEventsMessage[17] == '*';
    }
  }

  /** A non-empty agenda is the dated header followed by every event's block,
      in list order. */
  lemma MessageLayout(events: seq<Event>, d: Date, i: int)
    requires PrintableDate(d)
    requires 0 <= i < |events|
    ensures Message(events, d) == Header(d) + Blocks(events[..i]) + Block(events[i]) + Blocks(events[i + 1..])
  {
    var before, x, after := events[..i], events[i], events[i + 1..];
    assert events == before + ([x] + after);
    BlocksConcat(before, [x] + after);
    BlocksConcat([x], after);
    ConcatSingle(x, Block);
    var h, b, bx, ba := Header(d), Blocks(before), Block(x), Blocks(after);
    AppendAssociates(b, bx, ba);
    AppendAssociates(h, b + bx, ba);
    AppendAssociates(h, b, bx);
  }

  /** The location line is there exactly when the location is a non-empty
      string. */
  lemma BlockLocationIff(e: Event)
    ensures Block(e) == TimeLine(e) + "\n" <==> !Truthy(e.location)
  {
    if Truthy(e.location) {
      assert |Block(e)| > |TimeLine(e) + "\n"|;
    }
  }
}
