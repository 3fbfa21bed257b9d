/** The stats handler's time window: which range the `range` query parameter
    selects, where the window starts, and how far the gap-filling walk steps.
    Instants are integer milliseconds since the epoch. */
module Window {

  const MinuteMs: int := 60000
  const HourMs: int := 3600000
  const DayMs: int := 86400000

  /** The range selectors the handler tells apart. Every other value of the
      parameter behaves alike, so they share one constructor. */
  datatype Range = Hour | Day | Week | Unrecognised

  /** The `range` query parameter as the framework delivers it: missing, one
      value, or a repeated parameter (an array of values). */
  datatype QueryValue = Absent | Single(text: string) | Repeated(texts: seq<string>)

  /** The selector the handler acts on. A missing parameter defaults to
      "hour"; an array never equals a string literal, so it falls through
      every comparison. */
  function Selector(q: QueryValue): (r: Range)
    ensures r == Hour <==> q == Absent || q == Single("hour")
    ensures r == Day <==> q == Single("day")
    ensures r == Week <==> q == Single("week")
  {
    match q
    case Absent => Hour
    case Single(s) =>
      if s == "hour" then Hour
      else if s == "day" then Day
      else if s == "week" then Week
      else Unrecognised
    case Repeated(_) => Unrecognised
  }

  /** Length of the window the selector asks for. */
  function Span(r: Range): (d: int)
    ensures d > 0
  {
    match r
    case Day => DayMs
    case Week => 7 * DayMs
    case _ => HourMs
  }

  /** `startTime`: the window is `[Start(r, now), now]`. Local-time
      `setHours`/`setDate` are taken at a fixed offset, so an hour and a day
      are exact multiples of a millisecond. */
  function Start(r: Range, now: int): (s: int)
    ensures s < now <= s + 7 * DayMs
  {
    now - Span(r)
  }

  /** Step of the gap-filling walk: one minute for "hour" and "day", one day
      for every other selector. */
  function Increment(r: Range): (inc: int)
    ensures inc > 0
    ensures inc == MinuteMs <==> r == Hour || r == Day
  {
    if r == Hour || r == Day then MinuteMs else DayMs
  }

  /** The start instants the handler computes, by parameter value. */
  lemma StartByParameter(now: int, other: string)
    requires other != "hour" && other != "day" && other != "week"
    ensures Start(Selector(Absent), now) == now - 3600000
    ensures Start(Selector(Single("hour")), now) == now - 3600000
    ensures Start(Selector(Single("day")), now) == now - 86400000
    ensures Start(Selector(Single("week")), now) == now - 604800000
    ensures Start(Selector(Single(other)), now) == now - 3600000
    ensures forall vs :: Start(Selector(Repeated(vs)), now) == now - 3600000
  {
  }

  /** The step size, by parameter value: an unrecognised selector gets the
      hour window but the day step. */
  lemma IncrementByParameter(other: string)
    requires other != "hour" && other != "day" && other != "week"
    ensures Increment(Selector(Absent)) == 60000
    ensures Increment(Selector(Single("hour"))) == 60000
    ensures Increment(Selector(Single("day"))) == 60000
    ensures Increment(Selector(Single("week"))) == 86400000
    ensures Increment(Selector(Single(other))) == 86400000
    ensures forall vs :: Increment(Selector(Repeated(vs))) == 86400000
    ensures Span(Selector(Single(other))) < Increment(Selector(Single(other)))
  {
  }
}
