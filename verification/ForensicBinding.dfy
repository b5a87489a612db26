/**
 * What the parts of an archive are made of: the text behind every link holds the record and the hash
 * before it and nothing else, so that a final hash binds all records; and a bundle says what it
 * is said to, property by property.
 */
module ForensicBinding {
  import opened Prelude
  import opened Sorting
  import opened CanonicalJson
  import opened JsonText
  import opened ForensicChain
  import opened ForensicIntegrity
  import KeyOrder

  // ---- the hash chain ----

  lemma LinkLookups(record: Json, previousHash: string, k: string)
    requires Proper(record)
    ensures Proper(Obj(LinkFields(record, previousHash)))
    ensures Lookup(LinkFields(record, previousHash), k) ==
            if k == "record" then record else if k == "previousHash" then Str(previousHash) else Undefined
  {
    var f := LinkFields(record, previousHash);
    assert |f[0].key| == 6 && |f[1].key| == 12;
    if k == "record" {
      LookupFinds(f, 0);
    } else if k == "previousHash" {
      LookupFinds(f, 1);
    } else {
      LookupMisses(f, k);
    }
  }

  lemma StringContent(s: string)
    ensures Content(Str(s)) == Str(s)
  {
  }

  lemma LinkContent(record: Json, previousHash: string, k: string)
    requires Proper(record) && record.Obj?
    ensures Get(Content(Obj(LinkFields(record, previousHash))), k) ==
            if k == "record" then Content(record) else if k == "previousHash" then Str(previousHash) else Undefined
  {
    hide Lookup, LinkFields, Content, Proper;
    LinkLookups(record, previousHash, k);
    StringContent(previousHash);
    ObjectContent(LinkFields(record, previousHash));
  }

  /** A link's text is the text of exactly this object. */
  lemma LinkTextSays(record: Json, previousHash: string)
    requires Proper(record) && record.Obj?
    ensures var v := Parse(LinkText(record, previousHash));
            && v.Some? && Get(v.value, "record") == Content(record) && Get(v.value, "previousHash") == Str(previousHash)
            && forall k :: k != "record" && k != "previousHash" ==> Get(v.value, k) == Undefined
  {
    hide Get, Parse, Content, StableStringify, Proper, LinkFields;
    LinkLookups(record, previousHash, "record");
    StableTextReads(Obj(LinkFields(record, previousHash)));
    LinkContent(record, previousHash, "record");
    LinkContent(record, previousHash, "previousHash");
    forall k | k != "record" && k != "previousHash"
      ensures Get(Content(Obj(LinkFields(record, previousHash))), k) == Undefined {
      LinkContent(record, previousHash, k);
    }
  }

  /** Two links have the same text exactly when records and previous hashes are the same. */
  lemma LinkTextDecides(a: Json, b: Json, p: string, q: string)
    requires Proper(a) && a.Obj? && Proper(b) && b.Obj?
    ensures LinkText(a, p) == LinkText(b, q) <==> Alike(a, b) && p == q
  {
    LinkTextSays(a, p);
    LinkTextSays(b, q);
    if Alike(a, b) && p == q {
      LinkTextsAgree(a, b, p);
    }
  }

  ghost predicate ProperRecords(a: seq<Json>) {
    forall i :: 0 <= i < |a| ==> a[i].Obj? && Proper(a[i])
  }

  lemma LinkIsHashed(h: Hash, a: seq<Json>, k: nat)
    requires k < |a|
    ensures var step := HashesOf(h).step; Link(step, a, k + 1) == h(LinkText(a[k], Link(step, a, k)))
  {
  }

  // The texts of the i-th links of two lists are different and have the same hash.
  ghost predicate LinksCollide(h: Hash, a: seq<Json>, b: seq<Json>, i: nat)
    requires i < |a| && i < |b|
  {
    var step := HashesOf(h).step;
    Collision(h, LinkText(a[i], Link(step, a, i)), LinkText(b[i], Link(step, b, i)))
  }

  // The hash after a record binds the record and the hash before it.
  lemma LastLinkBinds(h: Hash, a: seq<Json>, b: seq<Json>, k: nat)
    requires ProperRecords(a) && ProperRecords(b) && k < |a| && k < |b|
    requires var step := HashesOf(h).step; Link(step, a, k + 1) == Link(step, b, k + 1)
    ensures var step := HashesOf(h).step;
            LinksCollide(h, a, b, k) || (Alike(a[k], b[k]) && Link(step, a, k) == Link(step, b, k))
  {
    hide Link, LinkText, Proper, Alike;
    LinkIsHashed(h, a, k);
    LinkIsHashed(h, b, k);
    LinkTextDecides(a[k], b[k], Link(HashesOf(h).step, a, k), Link(HashesOf(h).step, b, k));
  }

  /**
   * The hash after k records binds them all: two lists that have it in common are alike up to there,
   * or the texts of two of their links collide.
   */
  lemma {:induction false} ChainBinds(h: Hash, a: seq<Json>, b: seq<Json>, k: nat)
    requires ProperRecords(a) && ProperRecords(b) && k <= |a| && k <= |b|
    requires var step := HashesOf(h).step; Link(step, a, k) == Link(step, b, k)
    ensures (forall i: nat :: i < k ==> Alike(a[i], b[i])) || exists i: nat :: i < k && LinksCollide(h, a, b, i)
  {
    hide LinksCollide, Link, Proper, Alike;
    if k > 0 {
      LastLinkBinds(h, a, b, k - 1);
      if !LinksCollide(h, a, b, k - 1) {
        ChainBinds(h, a, b, k - 1);
      }
    }
  }

  /** Conversely, lists that are alike have the same hash after every record. */
  lemma AlikeListsHaveOneChain(h: Hash, a: seq<Json>, b: seq<Json>, k: nat)
    requires ProperRecords(a) && ProperRecords(b) && |a| == |b| && k <= |a|
    requires forall i: nat :: i < |a| ==> Alike(a[i], b[i])
    ensures var step := HashesOf(h).step; Link(step, a, k) == Link(step, b, k)
  {
    var step := HashesOf(h).step;
    forall i, p | 0 <= i < |a| ensures step(a[i], p) == step(b[i], p) {
      StepsAgree(h, a[i], b[i], p);
    }
    LinksAgree(step, a, b, k);
  }

  // ---- what a built bundle says ----

  lemma {:induction false} DecimalMeans(n: nat)
    ensures KeyOrder.Value(Decimal(n)) == n
  {
    if n >= 10 {
      DecimalMeans(n / 10);
      LastDigit(Decimal(n / 10), "0123456789"[n % 10]);
    }
  }

  lemma {:induction false} LastDigit(s: string, c: char)
    ensures KeyOrder.Value(s + [c]) == 10 * KeyOrder.Value(s) + KeyOrder.DigitValue(c)
  {
    if s == "" {
      assert s + [c] == [c];
    } else {
      assert (s + [c])[1..] == s[1..] + [c] && (s + [c])[0] == s[0];
      LastDigit(s[1..], c);
    }
  }

  // What a manifest says of the records it is for, under the keys it is stored with.
  ghost predicate ManifestSays(m: Json, h: Hash, w: Window, createdAt: string, records: seq<Json>) {
    && Get(m, "version") == Number("1") && Get(m, "archiveType") == Str("forensic-operational-errors")
    && Get(m, "date") == Str(w.date) && Get(m, "windowStart") == Str(w.start) && Get(m, "windowEnd") == Str(w.end)
    && Get(m, "ordering") == Arr([Str("recordedAt"), Str("eventId")]) && Get(m, "createdAt") == Str(createdAt)
    && Get(m, "eventCount").Number? && KeyOrder.Value(Get(m, "eventCount").text) == |records|
    && Get(m, "recordsSha256") == Str(h(StableStringify(Arr(records))))
    && Get(m, "firstEventId") == (if records == [] then Undefined else StringAt(records[0], "eventId"))
    && Get(m, "lastEventId") == (if records == [] then Undefined else StringAt(records[|records| - 1], "eventId"))
  }

  // A property that is a string.
  function StringAt(v: Json, k: string): Json { if Get(v, k).Str? then Get(v, k) else Undefined }

  // Item i holds record i, the hash before it, and the hash of both.
  ghost predicate EventSays(items: seq<Json>, h: Hash, records: seq<Json>, i: nat)
    requires i < |items| == |records|
  {
    && Get(items[i], "record") == records[i]
    && Get(items[i], "previousHash").Str?
    && Get(items[i], "previousHash") ==
       (if i == 0 then Str(seq(64, _ => '0')) else Get(items[i - 1], "eventHash"))
    && Get(items[i], "eventHash") == Str(h(LinkText(records[i], Get(items[i], "previousHash").s)))
  }

  ghost predicate EventsSay(items: seq<Json>, h: Hash, records: seq<Json>) {
    |items| == |records| && forall i :: 0 <= i < |items| ==> EventSays(items, h, records, i)
  }

  ghost predicate EndsSay(m: Json, items: seq<Json>) {
    && Get(m, "firstEventHash") == (if items == [] then Undefined else Get(items[0], "eventHash"))
    && Get(m, "finalEventHash") ==
       (if items == [] then Str(seq(64, _ => '0')) else Get(items[|items| - 1], "eventHash"))
  }

  /** A built bundle has these two properties, and its first and final hashes are its events'. */
  lemma BuiltBundleSays(h: Hash, w: Window, createdAt: string, records: seq<Json>)
    ensures var v := BundleJson(ManifestOf(HashesOf(h), w, createdAt, records), Events(HashesOf(h).step, records));
            var m, events := Get(v, "manifest"), Get(v, "events");
            ManifestSays(m, h, w, createdAt, records) &&
            events.Arr? && EventsSay(events.items, h, records) && EndsSay(m, events.items)
  {
    hide Get, Link, StableStringify, ManifestSays, EventsSay, EndsSay, ManifestFrom;
    var hs := HashesOf(h);
    var m, events := ManifestOf(hs, w, createdAt, records), Events(hs.step, records);
    BundleReads(m, events);
    ManifestSpelled(h, w, createdAt, records);
    var items := Get(BundleJson(m, events), "events").items;
    forall i | 0 <= i < |items| ensures EventRead(items[i], events[i]) {
      EventReads(events[i]);
    }
    EventsSpelled(h, items, records);
    EndsSpelled(h, w, createdAt, records, items);
  }

  lemma ManifestSpelled(h: Hash, w: Window, createdAt: string, records: seq<Json>)
    ensures ManifestSays(ManifestOf(HashesOf(h), w, createdAt, records).ToJson(), h, w, createdAt, records)
  {
    hide Get, Link, StableStringify;
    var m := ManifestOf(HashesOf(h), w, createdAt, records);
    ManifestPropertiesRead(m);
    DecimalMeans(|records|);
    ListIsHashed(h, records);
    assert ORDERING == [Str("recordedAt"), Str("eventId")];
    if records != [] {
      IdIsString(records[0]);
      IdIsString(records[|records| - 1]);
    }
  }

  lemma ListIsHashed(h: Hash, records: seq<Json>)
    ensures HashesOf(h).list(records) == h(StableStringify(Arr(records)))
  {
    assert HashesOf(h).list(records) == h(ListText(records));
  }

  lemma IdIsString(record: Json)
    ensures EventIdOf(record) == StringAt(record, "eventId")
  {
  }

  lemma EndsSpelled(h: Hash, w: Window, createdAt: string, records: seq<Json>, items: seq<Json>)
    requires var events := Events(HashesOf(h).step, records);
             |items| == |events| && forall i :: 0 <= i < |items| ==> EventRead(items[i], events[i])
    ensures EndsSay(ManifestOf(HashesOf(h), w, createdAt, records).ToJson(), items)
  {
    hide Get, StableStringify;
    ManifestPropertiesRead(ManifestOf(HashesOf(h), w, createdAt, records));
    GenesisIsZeros();
    if items != [] {
      assert EventRead(items[0], Events(HashesOf(h).step, records)[0]);
    }
  }

  lemma GenesisIsZeros()
    ensures GENESIS == seq(64, _ => '0')
  {
  }

  ghost predicate EventRead(v: Json, e: Event) {
    Get(v, "record") == e.record && Get(v, "previousHash") == e.previousHash && Get(v, "eventHash") == e.eventHash
  }

  lemma EventsSpelled(h: Hash, items: seq<Json>, records: seq<Json>)
    requires var events := Events(HashesOf(h).step, records);
             |items| == |events| && forall i :: 0 <= i < |items| ==> EventRead(items[i], events[i])
    ensures EventsSay(items, h, records)
  {
    hide EventSays;
    forall i | 0 <= i < |items| ensures EventSays(items, h, records, i) {
      EventSpelled(h, items, records, i);
    }
  }

  lemma EventSpelled(h: Hash, items: seq<Json>, records: seq<Json>, i: nat)
    requires var events := Events(HashesOf(h).step, records);
             |items| == |events| && forall i :: 0 <= i < |items| ==> EventRead(items[i], events[i])
    requires i < |items|
    ensures EventSays(items, h, records, i)
  {
    hide Get, StableStringify, LinkText;
    var events := Events(HashesOf(h).step, records);
    assert EventRead(items[i], events[i]) && (i > 0 ==> EventRead(items[i - 1], events[i - 1]));
    LinkIsHashed(h, records, i);
    GenesisIsZeros();
  }

  lemma ManifestPropertiesRead(m: Manifest)
    ensures var v := m.ToJson();
            && Get(v, "version") == m.version && Get(v, "archiveType") == m.archiveType && Get(v, "date") == m.date
            && Get(v, "windowStart") == m.windowStart && Get(v, "windowEnd") == m.windowEnd
            && Get(v, "ordering") == m.ordering && Get(v, "createdAt") == m.createdAt
            && Get(v, "eventCount") == m.eventCount && Get(v, "firstEventId") == m.firstEventId
            && Get(v, "lastEventId") == m.lastEventId && Get(v, "firstEventHash") == m.firstEventHash
            && Get(v, "finalEventHash") == m.finalEventHash && Get(v, "recordsSha256") == m.recordsSha256
  {
    var v := m.ToJson();
    forall k: nat | k < 13 ensures Get(v, m.Entry(k).key) == m.Entry(k).value { ManifestReads(m, k); }
    ManifestFromEntries(k => Get(v, k), m);
  }

  // ---- the order of the records ----

  // Not after: earlier, or at the same time and not with a greater id, as code units.
  ghost predicate NotAfter(a: Record, b: Record) {
    || a.recordedAt < b.recordedAt
    || (a.recordedAt == b.recordedAt &&
        !KeyOrder.LexicographicallyLess(KeyOrder.Utf16(b.eventId), KeyOrder.Utf16(a.eventId)))
  }

  /** The canonical records are the given ones, by time and, at equal times, by the id's code units. */
  lemma CanonicalRecordsAreSorted(records: seq<Record>) returns (sorted: seq<Record>)
    ensures multiset(sorted) == multiset(records) && |CanonicalRecords(records)| == |sorted|
    ensures forall i :: 0 <= i < |sorted| ==> CanonicalRecords(records)[i] == Normalize(Obj(sorted[i].fields))
    ensures forall i, j :: 0 <= i < j < |sorted| ==> NotAfter(sorted[i], sorted[j])
  {
    sorted := SortBy(records, RecordBefore);
    RecordBeforeIsStrictWeak();
    SortSorts(records, RecordBefore);
    SortKeepsElements(records, RecordBefore);
    forall i, j | 0 <= i < j < |sorted| ensures NotAfter(sorted[i], sorted[j]) {
      assert !RecordBefore(sorted[j], sorted[i]);
      KeyOrder.PrecedesIsByCodeUnits(sorted[j].eventId, sorted[i].eventId);
    }
  }

  // ---- the verdicts ----

  // The parts of a stored bundle that are to fit, over the bundle's own fields.
  ghost predicate HeaderIsRight(m: Manifest, w: Window) {
    && m.version == Number("1") && m.archiveType == Str("forensic-operational-errors") && m.date == Str(w.date)
    && m.windowStart == Str(w.start) && m.windowEnd == Str(w.end)
    && m.ordering.Arr? && |m.ordering.items| >= 2
    && m.ordering.items[0] == Str("recordedAt") && m.ordering.items[1] == Str("eventId")
  }

  ghost predicate RecordsAreRight(h: Hash, m: Manifest, events: seq<Event>, expected: string) {
    && m.recordsSha256 == Str(expected)
    && h(StableStringify(Arr(seq(|events|, i requires 0 <= i < |events| => events[i].record)))) == expected
    && m.eventCount == Number(Decimal(|events|))
  }

  // Event i carries the hash of the event before it, and the hash of that and its record.
  ghost predicate EventIsRight(h: Hash, events: seq<Event>, i: nat)
    requires i < |events|
  {
    && events[i].previousHash == (if i == 0 then Str(seq(64, _ => '0')) else events[i - 1].eventHash)
    && events[i].previousHash.Str?
    && events[i].eventHash == Str(h(LinkText(events[i].record, events[i].previousHash.s)))
  }

  ghost predicate EndsAreRight(m: Manifest, events: seq<Event>) {
    if events == [] then
      && m.firstEventId == m.lastEventId == m.firstEventHash == Undefined
      && m.finalEventHash == Str(seq(64, _ => '0'))
    else
      var first, last := events[0], events[|events| - 1];
      && m.firstEventId == StringAt(first.record, "eventId") && m.lastEventId == StringAt(last.record, "eventId")
      && m.firstEventHash == first.eventHash && m.finalEventHash == last.eventHash
  }

  lemma LinkFitsMeans(h: Hash, events: seq<Event>, i: nat)
    requires i < |events|
    requires var step, a := HashesOf(h).step, RecordsOf(events);
             Str(Link(step, a, i)) == if i == 0 then Str(seq(64, _ => '0')) else events[i - 1].eventHash
    ensures LinkFits(HashesOf(h).step, events[i], RecordsOf(events), i) <==> EventIsRight(h, events, i)
  {
    hide Link, LinkText;
    LinkIsHashed(h, RecordsOf(events), i);
  }

  lemma {:induction false} ChainFitsMeans(h: Hash, events: seq<Event>, n: nat)
    requires n <= |events|
    ensures (forall i :: 0 <= i < n ==> LinkFits(HashesOf(h).step, events[i], RecordsOf(events), i)) <==>
            (forall i :: 0 <= i < n ==> EventIsRight(h, events, i))
  {
    hide EventIsRight, Link;
    if n > 0 {
      var m, step, a := n - 1, HashesOf(h).step, RecordsOf(events);
      ChainFitsMeans(h, events, m);
      if forall i :: 0 <= i < m ==> LinkFits(step, events[i], a, i) {
        LinkStart(step, a);
        assert m > 0 ==> LinkFits(step, events[m - 1], a, m - 1);
        LinkFitsMeans(h, events, m);
      }
    }
  }

  lemma LinkStart(step: Step, a: seq<Json>)
    ensures Link(step, a, 0) == seq(64, _ => '0')
  {
    GenesisIsZeros();
  }

  // The records of events, under both names.
  lemma RecordsRead(h: Hash, m: Manifest, events: seq<Event>, expected: string)
    ensures var a := RecordsOf(events);
            RecordsFit(m, |a|, HashesOf(h).list(a), expected) <==> RecordsAreRight(h, m, events, expected)
  {
    hide StableStringify, Decimal;
    var a := RecordsOf(events);
    ListIsHashed(h, a);
    assert a == seq(|events|, i requires 0 <= i < |events| => events[i].record);
  }

  lemma HeaderReads(m: Manifest, w: Window)
    ensures HeaderFits(m, w) <==> HeaderIsRight(m, w)
  {
    if m.ordering.Arr? && |m.ordering.items| >= 2 {
      assert ORDERING <= m.ordering.items <==> m.ordering.items[0] == ORDERING[0] && m.ordering.items[1] == ORDERING[1];
    }
  }

  lemma EndsRead(h: Hash, m: Manifest, events: seq<Event>)
    requires ChainFits(HashesOf(h).step, events, RecordsOf(events))
    ensures var step, a := HashesOf(h).step, RecordsOf(events);
            EndsFit(m, FirstId(a), LastId(a), FirstHash(step, a), Str(Link(step, a, |a|))) <==> EndsAreRight(m, events)
  {
    hide Link, Get;
    var step, a := HashesOf(h).step, RecordsOf(events);
    LinkStart(step, a);
    if events != [] {
      var n := |events| - 1;
      IdIsString(a[0]);
      IdIsString(a[n]);
      assert LinkFits(step, events[0], a, 0) && LinkFits(step, events[n], a, n);
    }
  }

  // Reading a property of a null record throws.
  ghost predicate EndsCanBeRead(events: seq<Event>) {
    events == [] || (!Nullish(events[0].record) && !Nullish(events[|events| - 1].record))
  }

  lemma ChainReads(h: Hash, events: seq<Event>)
    ensures ChainFits(HashesOf(h).step, events, RecordsOf(events)) <==>
            !exists i :: 0 <= i < |events| && !EventIsRight(h, events, i)
  {
    hide EventIsRight, LinkFits, Link, HashesOf;
    ChainFitsMeans(h, events, |events|);
  }

  /** The checks of a bundle whose events can all be read, in their order. */
  lemma EventsVerdictMeans(h: Hash, m: Manifest, events: seq<Event>, expected: string)
    ensures CheckEvents(HashesOf(h), m, events, expected) ==
            if !RecordsAreRight(h, m, events, expected) then IntegrityConflict
            else if exists i :: 0 <= i < |events| && !EventIsRight(h, events, i) then InvalidChain
            else if !EndsCanBeRead(events) then TypeError
            else if !EndsAreRight(m, events) then InvalidChain
            else Accepted
  {
    hide EventIsRight, RecordsAreRight, EndsAreRight, EndsFit, RecordsFit, ChainFits, Link, HashesOf;
    RecordsRead(h, m, events, expected);
    ChainReads(h, events);
    if ChainFits(HashesOf(h).step, events, RecordsOf(events)) {
      EndsRead(h, m, events);
    }
  }

  /** What verifying a stored bundle decides, over the bundle's own properties. */
  lemma VerdictMeans(h: Hash, b: Bundle, w: Window, expected: string)
    ensures var verdict := Check(HashesOf(h), b, w, expected);
            && (verdict == InvalidManifest <==> !HeaderIsRight(b.manifest, w) || b.events.None?)
            && (verdict != InvalidManifest && None in b.events.value ==> verdict == TypeError)
            && (verdict != InvalidManifest && None !in b.events.value ==>
                  var items := b.events.value;
                  var events := seq(|items|, i requires 0 <= i < |items| => items[i].value);
                  verdict == if !RecordsAreRight(h, b.manifest, events, expected) then IntegrityConflict
                             else if exists i :: 0 <= i < |events| && !EventIsRight(h, events, i) then InvalidChain
                             else if !EndsCanBeRead(events) then TypeError
                             else if !EndsAreRight(b.manifest, events) then InvalidChain
                             else Accepted)
  {
    hide EventIsRight, RecordsAreRight, EndsAreRight, EndsCanBeRead, HeaderIsRight, HeaderFits, CheckEvents, HashesOf;
    HeaderReads(b.manifest, w);
    if b.events.Some? && None !in b.events.value {
      var items := b.events.value;
      assert Solid(items) == seq(|items|, i requires 0 <= i < |items| => items[i].value);
      EventsVerdictMeans(h, b.manifest, Solid(items), expected);
      EventsVerdictIsLate(HashesOf(h), b.manifest, Solid(items), expected);
    }
  }

  lemma EventsVerdictIsLate(hs: Hashes, m: Manifest, events: seq<Event>, expected: string)
    ensures CheckEvents(hs, m, events, expected) != InvalidManifest
  {
  }
}
