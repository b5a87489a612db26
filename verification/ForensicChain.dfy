/**
 * The hash-chained archive of one day: the canonical order of its records, the bundle built from
 * them, and the verification of a stored bundle against the records the database holds now. The
 * hash is any function from texts to texts.
 */
module ForensicChain {
  import opened Prelude
  import opened Sorting
  import opened CanonicalJson
  import opened JsonText

  type Hash = string -> string

  // The date of the archive and the two ends of its window in ISO form.
  datatype Window = Window(date: string, start: string, end: string)

  // An operational error record: its time, its id, and all its fields, the two among them.
  datatype Record = Record(recordedAt: int, eventId: string, fields: seq<Field>)

  const GENESIS: string := seq(64, _ => '0')

  // ---- the canonical list of records ----

  predicate RecordBefore(a: Record, b: Record) {
    a.recordedAt < b.recordedAt || (a.recordedAt == b.recordedAt && Precedes(a.eventId, b.eventId))
  }

  function CanonicalRecords(records: seq<Record>): (r: seq<Json>)
    ensures |r| == |records| && forall i :: 0 <= i < |r| ==> r[i].Obj?
  {
    var sorted := SortBy(records, RecordBefore);
    seq(|sorted|, i requires 0 <= i < |sorted| => Normalize(Obj(sorted[i].fields)))
  }

  lemma RecordBeforeIsStrictWeak()
    ensures StrictWeak(RecordBefore)
  {
    forall x, y | RecordBefore(x, y) ensures !RecordBefore(y, x) {
      PrecedesIsTotal(x.eventId, y.eventId);
    }
    forall x, y, z | RecordBefore(x, z) ensures RecordBefore(x, y) || RecordBefore(y, z) {
      PrecedesIsTotal(x.eventId, y.eventId);
      if Precedes(y.eventId, x.eventId) && Precedes(x.eventId, z.eventId) {
        PrecedesChains(y.eventId, x.eventId, z.eventId);
      }
    }
  }

  /** However the database returns the records, the list is the same, as long as ids are unique. */
  lemma CanonicalRecordsForgetOrder(a: seq<Record>, b: seq<Record>)
    requires multiset(a) == multiset(b)
    requires forall x, y :: x in a && y in a && x.eventId == y.eventId ==> x == y
    ensures CanonicalRecords(a) == CanonicalRecords(b)
  {
    RecordBeforeIsStrictWeak();
    forall x, y | x in a && y in a && x != y ensures RecordBefore(x, y) || RecordBefore(y, x) {
      PrecedesIsTotal(x.eventId, y.eventId);
    }
    SortForgetsOrder(a, b, RecordBefore);
  }

  // ---- values of a bundle ----

  // Property access; other values than objects have none of the properties asked for here.
  function Get(v: Json, k: string): Json { if v.Obj? then Lookup(v.fields, k) else Undefined }

  function EventIdOf(record: Json): Json {
    var id := Get(record, "eventId");
    if id.Str? then id else Undefined
  }

  lemma {:induction false} DigitsOfAll(t: string)
    requires forall i :: 0 <= i < |t| ==> Digit(t[i])
    ensures Digits(t) == |t|
  {
    if t != "" {
      DigitsOfAll(t[1..]);
    }
  }

  // A number in its usual notation: no leading zero.
  function Decimal(n: nat): (t: NumberText)
    ensures (forall i :: 0 <= i < |t| ==> Digit(t[i])) && (t[0] == '0' ==> n == 0)
  {
    var digit := ["0123456789"[n % 10]];
    if n < 10 then digit
    else
      var t := Decimal(n / 10) + digit;
      DigitsOfAll(t);
      t
  }

  function ListText(records: seq<Json>): string { StableStringify(Arr(records)) }

  function LinkFields(record: Json, previousHash: string): seq<Field> {
    [Field("record", record), Field("previousHash", Str(previousHash))]
  }

  function LinkText(record: Json, previousHash: string): string {
    StableStringify(Obj(LinkFields(record, previousHash)))
  }

  type Step = (Json, string) -> string

  // The two hashes an archive takes: of the list of records, and of an event, from its record and
  // the hash before it.
  datatype Hashes = Hashes(list: seq<Json> -> string, step: Step)

  function HashesOf(h: Hash): Hashes {
    Hashes(records => h(ListText(records)), (record, previousHash) => h(LinkText(record, previousHash)))
  }

  // The hash after the first k records.
  function Link(step: Step, records: seq<Json>, k: nat): string
    requires k <= |records|
  {
    if k == 0 then GENESIS else step(records[k - 1], Link(step, records, k - 1))
  }

  // ---- bundles ----

  // A manifest as it is built, or as it is read from a stored bundle, where any property may be
  // missing or of another type.
  datatype Manifest = Manifest(version: Json, archiveType: Json, date: Json, windowStart: Json, windowEnd: Json,
                               ordering: Json, createdAt: Json, eventCount: Json, firstEventId: Json,
                               lastEventId: Json, firstEventHash: Json, finalEventHash: Json, recordsSha256: Json)
  {
    // The properties, in the order they are written in.
    function Entry(k: nat): Field
      requires k < 13
    {
      match k
      case 0 => Field("version", version)
      case 1 => Field("archiveType", archiveType)
      case 2 => Field("date", date)
      case 3 => Field("windowStart", windowStart)
      case 4 => Field("windowEnd", windowEnd)
      case 5 => Field("ordering", ordering)
      case 6 => Field("createdAt", createdAt)
      case 7 => Field("eventCount", eventCount)
      case 8 => Field("firstEventId", firstEventId)
      case 9 => Field("lastEventId", lastEventId)
      case 10 => Field("firstEventHash", firstEventHash)
      case 11 => Field("finalEventHash", finalEventHash)
      case _ => Field("recordsSha256", recordsSha256)
    }

    function Entries(): (fs: seq<Field>)
      ensures |fs| == 13 && forall k :: 0 <= k < 13 ==> fs[k] == Entry(k)
    {
      seq(13, k requires 0 <= k < 13 => Entry(k))
    }

    // Properties without a value are not set.
    function ToJson(): Json { Obj(Defined(Entries())) }
  }

  // A manifest made of what there is under each key.
  function ManifestFrom(at: string -> Json): Manifest {
    Manifest(at("version"), at("archiveType"), at("date"), at("windowStart"), at("windowEnd"), at("ordering"),
             at("createdAt"), at("eventCount"), at("firstEventId"), at("lastEventId"), at("firstEventHash"),
             at("finalEventHash"), at("recordsSha256"))
  }

  function ReadManifest(v: Json): Manifest { ManifestFrom(k => Get(v, k)) }

  datatype Event = Event(record: Json, previousHash: Json, eventHash: Json) {
    function ToJson(): Json {
      Obj([Field("record", record), Field("previousHash", previousHash), Field("eventHash", eventHash)])
    }
  }

  predicate Nullish(v: Json) { v.Undefined? || v.Null? }

  // None stands for an item without properties: reading one of it throws.
  function ReadEvent(v: Json): Option<Event> {
    if Nullish(v) then None else Some(Event(Get(v, "record"), Get(v, "previousHash"), Get(v, "eventHash")))
  }

  // The events are None when they are not an array.
  datatype Bundle = Bundle(manifest: Manifest, events: Option<seq<Option<Event>>>)

  function ReadBundle(v: Json): Bundle {
    var events := Get(v, "events");
    Bundle(ReadManifest(Get(v, "manifest")),
           if events.Arr? then
             Some(seq(|events.items|, i requires 0 <= i < |events.items| => ReadEvent(events.items[i])))
           else None)
  }

  function BundleJson(manifest: Manifest, events: seq<Event>): Json {
    Obj([ Field("manifest", manifest.ToJson()),
          Field("events", Arr(seq(|events|, i requires 0 <= i < |events| => events[i].ToJson()))) ])
  }

  // ---- building ----

  function Events(step: Step, records: seq<Json>): (events: seq<Event>)
    ensures |events| == |records|
  {
    seq(|records|, i requires 0 <= i < |records| =>
      Event(records[i], Str(Link(step, records, i)), Str(Link(step, records, i + 1))))
  }

  function FirstId(records: seq<Json>): Json { if records == [] then Undefined else EventIdOf(records[0]) }

  function LastId(records: seq<Json>): Json { if records == [] then Undefined else EventIdOf(records[|records| - 1]) }

  function FirstHash(step: Step, records: seq<Json>): Json {
    if records == [] then Undefined else Str(Link(step, records, 1))
  }

  const VERSION: Json := Number("1")
  const ARCHIVE_TYPE: Json := Str("forensic-operational-errors")
  const ORDERING: seq<Json> := [Str("recordedAt"), Str("eventId")]

  // The manifest of an archive of these records.
  function ManifestOf(hs: Hashes, w: Window, createdAt: string, records: seq<Json>): Manifest {
    Manifest(VERSION, ARCHIVE_TYPE, Str(w.date), Str(w.start), Str(w.end), Arr(ORDERING), Str(createdAt),
             Number(Decimal(|records|)), FirstId(records), LastId(records), FirstHash(hs.step, records),
             Str(Link(hs.step, records, |records|)), Str(hs.list(records)))
  }

  // The events of buildBundle, each linked to the one before.
  method ChainEvents(step: Step, records: seq<Json>) returns (events: seq<Event>)
    ensures events == Events(step, records)
  {
    var previousHash := GENESIS;
    events := [];
    for i := 0 to |records|
      invariant previousHash == Link(step, records, i)
      invariant |events| == i && forall j :: 0 <= j < i ==> events[j] == Events(step, records)[j]
    {
      var eventHash := step(records[i], previousHash);
      events := events + [Event(records[i], Str(previousHash), Str(eventHash))];
      previousHash := eventHash;
    }
  }

  method BuildBundle(hs: Hashes, w: Window, createdAt: string, records: seq<Json>) returns (bundle: Json)
    ensures bundle == BundleJson(ManifestOf(hs, w, createdAt, records), Events(hs.step, records))
  {
    var recordsSha256 := hs.list(records);
    var events := ChainEvents(hs.step, records);
    var n := |events|;
    var firstEventId, lastEventId, firstEventHash, finalEventHash := Undefined, Undefined, Undefined, Str(GENESIS);
    if n > 0 {
      firstEventId, lastEventId := EventIdOf(events[0].record), EventIdOf(events[n - 1].record);
      firstEventHash, finalEventHash := events[0].eventHash, events[n - 1].eventHash;
    }
    bundle := BundleJson(Manifest(VERSION, ARCHIVE_TYPE, Str(w.date), Str(w.start), Str(w.end), Arr(ORDERING),
                                  Str(createdAt), Number(Decimal(n)), firstEventId, lastEventId, firstEventHash,
                                  finalEventHash, Str(recordsSha256)),
                         events);
  }

  // ---- verifying ----

  datatype Verdict = Accepted | InvalidManifest | IntegrityConflict | InvalidChain | TypeError

  function RecordsOf(events: seq<Event>): (records: seq<Json>)
    ensures |records| == |events|
  {
    seq(|events|, i requires 0 <= i < |events| => events[i].record)
  }

  // The events of a bundle none of which is null.
  function Solid(events: seq<Option<Event>>): (r: seq<Event>)
    requires None !in events
    ensures |r| == |events|
  {
    seq(|events|, i requires 0 <= i < |events| => events[i].value)
  }

  predicate HeaderFits(m: Manifest, w: Window) {
    && m.version == VERSION && m.archiveType == ARCHIVE_TYPE && m.date == Str(w.date)
    && m.windowStart == Str(w.start) && m.windowEnd == Str(w.end)
    && m.ordering.Arr? && ORDERING <= m.ordering.items
  }

  predicate RecordsFit(m: Manifest, count: nat, sha: string, expected: string) {
    m.recordsSha256 == Str(sha) == Str(expected) && m.eventCount == Number(Decimal(count))
  }

  // Event i carries the hashes before and after its record.
  predicate LinkFits(step: Step, event: Event, records: seq<Json>, i: nat)
    requires i < |records|
  {
    event.previousHash == Str(Link(step, records, i)) && event.eventHash == Str(Link(step, records, i + 1))
  }

  predicate ChainFits(step: Step, events: seq<Event>, records: seq<Json>)
    requires |events| == |records|
  {
    forall i :: 0 <= i < |records| ==> LinkFits(step, events[i], records, i)
  }

  predicate EndsFit(m: Manifest, firstId: Json, lastId: Json, firstHash: Json, finalHash: Json) {
    && m.firstEventId == firstId && m.lastEventId == lastId
    && m.firstEventHash == firstHash && m.finalEventHash == finalHash
  }

  // The checks in their order.
  function Check(hs: Hashes, b: Bundle, w: Window, expected: string): Verdict {
    if !HeaderFits(b.manifest, w) || b.events.None? then InvalidManifest
    else if None in b.events.value then TypeError
    else CheckEvents(hs, b.manifest, Solid(b.events.value), expected)
  }

  function CheckEvents(hs: Hashes, m: Manifest, events: seq<Event>, expected: string): Verdict {
    var records := RecordsOf(events);
    FirstFailure(
      RecordsFit(m, |records|, hs.list(records), expected),
      ChainFits(hs.step, events, records),
      records == [] || (!Nullish(records[0]) && !Nullish(records[|records| - 1])),
      EndsFit(m, FirstId(records), LastId(records), FirstHash(hs.step, records),
              Str(Link(hs.step, records, |records|))))
  }

  // What the checks give, in their order; the ids of a null record cannot be read.
  function FirstFailure(recordsFit: bool, chainFits: bool, endsReadable: bool, endsFit: bool): Verdict {
    if !recordsFit then IntegrityConflict
    else if !chainFits then InvalidChain
    else if !endsReadable then TypeError
    else if !endsFit then InvalidChain
    else Accepted
  }

  // The walk of verifyBundle along the chain, up to the first event that does not fit.
  method WalkChain(step: Step, events: seq<Event>, records: seq<Json>) returns (ok: bool, previousHash: string)
    requires |events| == |records|
    ensures ok == ChainFits(step, events, records)
    ensures ok ==> previousHash == Link(step, records, |records|)
  {
    previousHash := GENESIS;
    for i := 0 to |events|
      invariant previousHash == Link(step, records, i)
      invariant forall j :: 0 <= j < i ==> LinkFits(step, events[j], records, j)
    {
      var expectedEventHash := step(records[i], previousHash);
      if events[i].previousHash != Str(previousHash) || events[i].eventHash != Str(expectedEventHash) {
        assert !LinkFits(step, events[i], records, i);
        return false, previousHash;
      }
      previousHash := expectedEventHash;
    }
    return true, previousHash;
  }

  method VerifyBundle(hs: Hashes, bundle: Json, w: Window, expected: string) returns (verdict: Verdict)
    ensures verdict == Check(hs, ReadBundle(bundle), w, expected)
  {
    var b := ReadBundle(bundle);
    if !HeaderFits(b.manifest, w) || b.events.None? {
      return InvalidManifest;
    }
    if None in b.events.value {
      return TypeError;
    }
    verdict := VerifyEvents(hs, b.manifest, Solid(b.events.value), expected);
  }

  // verifyBundle after its first checks.
  method VerifyEvents(hs: Hashes, manifest: Manifest, events: seq<Event>, expected: string) returns (verdict: Verdict)
    ensures verdict == CheckEvents(hs, manifest, events, expected)
  {
    var records := RecordsOf(events);
    var archivedRecordsSha256 := hs.list(records);
    if !RecordsFit(manifest, |records|, archivedRecordsSha256, expected) {
      return IntegrityConflict;
    }
    var ok, previousHash := WalkChain(hs.step, events, records);
    if !ok {
      return InvalidChain;
    }
    var n := |records|;
    if n > 0 && (Nullish(records[0]) || Nullish(records[n - 1])) {
      return TypeError;
    }
    var firstEventHash := Undefined;
    if n > 0 {
      assert LinkFits(hs.step, events[0], records, 0);
      firstEventHash := events[0].eventHash;
    }
    if !EndsFit(manifest, FirstId(records), LastId(records), firstEventHash, Str(previousHash)) {
      return InvalidChain;
    }
    return Accepted;
  }
}
