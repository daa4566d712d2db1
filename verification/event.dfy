/** The calendar events handed over by the iCalendar parser, reduced to what
    the agenda uses. */
module Events {
  import Instant

  datatype Option<T> = None | Some(value: T)

  /** Python truthiness of a value that is either `None` or a string:
      `None` and the empty string are false. */
  predicate Truthy(s: Option<string>) {
    s.Some? && |s.value| > 0
  }

  /** A `tzinfo` offset lies strictly between minus one day and one day. */
  type Offset = o: int | -Instant.MicrosPerDay < o < Instant.MicrosPerDay

  /** `begin` is the instant the event starts (microseconds since the Unix
      epoch), `utcOffset` the offset of the time zone the start is expressed
      in; `name` and `location` may be absent in the feed. */
  datatype Event = Event(begin: int, utcOffset: Offset, name: Option<string>, location: Option<string>)
}
