/**
 * Client telemetry events and the entries they are: which of them count, as what, and under which
 * feed or flow.
 */
module TelemetryEvents {
  import opened Prelude

  const MAX_FEED_ID_LENGTH := 512
  const MAX_FLOW_TYPE_LENGTH := 64
  const MAX_FLOW_DURATION := 3600000.0


  datatype Kind = Ttfi | ScrollDepth | FlowStart | FlowComplete | FlowAbandon | Unknown

  // The feed id or flow type, when it is a string, and the duration or depth, when it is a finite number.
  datatype Event = Event(kind: Kind, dimension: Option<string>, number: Option<real>)

  // ---- which events count, and as what ----

  // White space and line ends that trim removes.
  predicate Blank(c: char) {
    c in "\t\n\U{B}\U{C}\r \U{A0}\U{1680}\U{2028}\U{2029}\U{202F}\U{205F}\U{3000}\U{FEFF}"
    || '\U{2000}' <= c <= '\U{200A}'
  }

  function Trim(s: string): (r: string)
    ensures |r| <= |s| && !BlankEnds(r)
    decreases |s|
  {
    if s == "" then s
    else if Blank(s[0]) then Trim(s[1..])
    else if Blank(s[|s| - 1]) then Trim(s[..|s| - 1])
    else s
  }

  predicate BlankEnds(s: string) { s != "" && (Blank(s[0]) || Blank(s[|s| - 1])) }

  // Length in UTF-16 code units.
  function Units(s: string): nat { if s == "" then 0 else (if s[0] as int >= 0x10000 then 2 else 1) + Units(s[1..]) }

  function NormalizeDimension(value: Option<string>, maxLength: nat): Option<string> {
    if value.None? then None
    else
      var normalized := Trim(value.value);
      if 0 < Units(normalized) <= maxLength then Some(normalized) else None
  }

  type Percent = n: nat | n <= 100

  // What an event comes to.
  datatype Entry =
    | Sample(duration: real)
    | Scrolled(feed: string, depth: Percent)
    | Started(flow: string)
    | Completed(flow: string, time: real)
    | Abandoned(flow: string)
    | Rejected

  function FlowOf(e: Event): Option<string> { NormalizeDimension(e.dimension, MAX_FLOW_TYPE_LENGTH) }

  function EntryOf(e: Event): Entry {
    match e.kind
    case Ttfi =>
      if e.number.None? || e.number.value <= 0.0 || e.number.value >= 60000.0 then Rejected else Sample(e.number.value)
    case ScrollDepth =>
      var feed := NormalizeDimension(e.dimension, MAX_FEED_ID_LENGTH);
      if feed.None? || e.number.None? || e.number.value.Floor as real != e.number.value
         || e.number.value < 0.0 || e.number.value > 100.0 then Rejected
      else Scrolled(feed.value, e.number.value.Floor)
    case FlowStart => if FlowOf(e).None? then Rejected else Started(FlowOf(e).value)
    case FlowComplete =>
      if FlowOf(e).None? || e.number.None? || e.number.value < 0.0 || e.number.value > MAX_FLOW_DURATION then Rejected
      else Completed(FlowOf(e).value, e.number.value)
    case FlowAbandon => if FlowOf(e).None? then Rejected else Abandoned(FlowOf(e).value)
    case Unknown => Rejected
  }

  function EntriesOf(events: seq<Event>): (r: seq<Entry>)
    ensures |r| == |events|
  {
    seq(|events|, i requires 0 <= i < |events| => EntryOf(events[i]))
  }
}
