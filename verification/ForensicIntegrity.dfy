/**
 * What verifying a stored bundle establishes: it is accepted exactly when every checked part is
 * the one building from the expected records makes, unless two texts with the same hash are at hand.
 */
module ForensicIntegrity {
  import opened Prelude
  import opened Sorting
  import opened CanonicalJson
  import opened JsonText
  import opened ForensicChain

  // A value that can come out of a JSON text.
  ghost predicate FromText(v: Json) {
    match v
    case Undefined => false
    case NotFinite => false
    case Date(_) => false
    case ObjectId(_) => false
    case Arr(items) => forall i :: 0 <= i < |items| ==> FromText(items[i])
    case Obj(fields) => DistinctKeys(fields) && forall i :: 0 <= i < |fields| ==> FromText(fields[i].value)
    case _ => true
  }

  // The expected records, as canonicalRecords makes them.
  ghost predicate Canon(records: seq<Json>) {
    forall i :: 0 <= i < |records| ==> records[i].Obj? && Normal(records[i])
  }

  // Equal up to what the canonical text forgets.
  ghost predicate Alike(v: Json, w: Json) { Content(v) == Content(w) }

  // A bundle read from a text.
  ghost predicate Stored(b: Bundle) {
    b.events.Some? ==> None !in b.events.value ==>
      forall i :: 0 <= i < |b.events.value| ==>
        b.events.value[i].value.record.Undefined? || FromText(b.events.value[i].value.record)
  }

  // The bundle is the one built with this manifest and these events. The creation time is free, and
  // the ordering may go on after its two names.
  ghost predicate Agrees(m: Manifest, events: seq<Event>, builtManifest: Manifest, built: seq<Event>) {
    && m.(ordering := builtManifest.ordering, createdAt := builtManifest.createdAt) == builtManifest
    && m.ordering.Arr? && ORDERING <= m.ordering.items
    && |events| == |built|
    && (forall i :: 0 <= i < |events| ==> EventAgrees(events[i], built[i]))
  }

  ghost predicate AgreesWith(b: Bundle, m: Manifest, events: seq<Event>) {
    b.events.Some? && None !in b.events.value && Agrees(b.manifest, Solid(b.events.value), m, events)
  }

  ghost predicate EventAgrees(event: Event, built: Event) {
    && Alike(event.record, built.record)
    && event.previousHash == built.previousHash && event.eventHash == built.eventHash
  }

  ghost predicate Collision(h: Hash, x: string, y: string) { x != y && h(x) == h(y) }

  // ---- contents of objects ----

  // The content of a field's value; a field that is undefined has none.
  function ContentAt(v: Json): Json { if v.Undefined? then Undefined else Content(v) }

  lemma {:induction false} LookupScrubbed(fields: seq<Field>, k: string)
    requires AllDefined(fields)
    ensures Lookup(ScrubFields(fields), k) ==
            if Lookup(fields, k).Undefined? then Undefined else Scrub(Lookup(fields, k))
  {
    if fields != [] {
      LookupScrubbed(fields[1..], k);
      assert ScrubFields(fields)[1..] == ScrubFields(fields[1..]);
    }
  }

  lemma {:induction false} LookupOfDefined(fields: seq<Field>, k: string)
    requires AllDefined(fields)
    ensures Lookup(fields, k).Undefined? <==> forall i :: 0 <= i < |fields| ==> fields[i].key != k
  {
    if fields != [] {
      LookupOfDefined(fields[1..], k);
      assert forall i :: 0 < i < |fields| ==> fields[i] == fields[1..][i - 1];
    }
  }

  // The content of an object, said by lookups.
  lemma ObjectContent(fields: seq<Field>)
    requires Proper(Obj(fields))
    ensures var r := Content(Obj(fields)).fields;
            Ordered(r) && AllDefined(r) && forall k :: Lookup(r, k) == ContentAt(Lookup(fields, k))
  {
    NormalizedObject(fields);
    NormalizeIsNormal(Obj(fields));
    ScrubKeepsText(Normalize(Obj(fields)));
    var n := Normalize(Obj(fields)).fields;
    forall k ensures Lookup(ScrubFields(n), k) == ContentAt(Lookup(fields, k)) {
      LookupScrubbed(n, k);
      LookupNormalized(fields, k);
    }
  }

  lemma SameLookupsSameContent(a: seq<Field>, b: seq<Field>)
    requires Proper(Obj(a)) && Proper(Obj(b))
    requires forall k :: ContentAt(Lookup(a, k)) == ContentAt(Lookup(b, k))
    ensures Alike(Obj(a), Obj(b))
  {
    ObjectContent(a);
    ObjectContent(b);
    var r, q := Content(Obj(a)).fields, Content(Obj(b)).fields;
    forall k ensures Lookup(r, k) == Lookup(q, k) {
      assert ContentAt(Lookup(a, k)) == ContentAt(Lookup(b, k));
    }
    LookupsDecide(r, q);
  }

  lemma {:induction false} FromTextIsProper(v: Json)
    requires FromText(v)
    ensures Proper(v)
  {
    match v
    case Arr(items) => forall i | 0 <= i < |items| ensures Proper(items[i]) { FromTextIsProper(items[i]); }
    case Obj(fields) =>
      forall i | 0 <= i < |fields| ensures Proper(fields[i].value) { FromTextIsProper(fields[i].value); }
    case _ =>
  }

  // Looking a property up in a value from a text.
  lemma {:induction false} LookupFromText(fields: seq<Field>, k: string)
    requires forall i :: 0 <= i < |fields| ==> FromText(fields[i].value)
    ensures Lookup(fields, k).Undefined? || FromText(Lookup(fields, k))
  {
    if fields != [] {
      LookupFromText(fields[1..], k);
    }
  }

  lemma {:induction false} LookupNormal(fields: seq<Field>, k: string)
    requires forall i :: 0 <= i < |fields| ==> Normal(fields[i].value)
    ensures Normal(Lookup(fields, k))
  {
    if fields != [] {
      LookupNormal(fields[1..], k);
    }
  }

  // ---- the same content gives the same hashes ----

  lemma ListContent(records: seq<Json>)
    ensures Content(Arr(records)).Arr? && |Content(Arr(records)).items| == |records|
    ensures forall i :: 0 <= i < |records| ==> Content(Arr(records)).items[i] == Content(records[i])
  {
    assert Normalize(Arr(records)).items == seq(|records|, i requires 0 <= i < |records| => Normalize(records[i]));
    assert Content(Arr(records)) == Arr(ScrubItems(Normalize(Arr(records)).items));
  }

  /** Two lists of records have the same text exactly when they are alike one by one. */
  lemma ListTextDecides(a: seq<Json>, b: seq<Json>)
    requires Proper(Arr(a)) && Proper(Arr(b))
    ensures ListText(a) == ListText(b) <==> |a| == |b| && forall i :: 0 <= i < |a| ==> Alike(a[i], b[i])
  {
    TextDecidesContent(Arr(a), Arr(b));
    ListContent(a);
    ListContent(b);
    if |a| == |b| && forall i :: 0 <= i < |a| ==> Alike(a[i], b[i]) {
      assert Content(Arr(a)).items == Content(Arr(b)).items;
    }
  }

  lemma LinkTextsAgree(a: Json, b: Json, previousHash: string)
    requires Proper(a) && Proper(b) && a.Obj? && b.Obj? && Alike(a, b)
    ensures LinkText(a, previousHash) == LinkText(b, previousHash)
  {
    var f, g := LinkFields(a, previousHash), LinkFields(b, previousHash);
    forall k ensures ContentAt(Lookup(f, k)) == ContentAt(Lookup(g, k)) {
      assert f[1..] == g[1..];
    }
    SameLookupsSameContent(f, g);
    TextDecidesContent(Obj(f), Obj(g));
  }

  lemma {:induction false} LinksAgree(step: Step, a: seq<Json>, b: seq<Json>, k: nat)
    requires |a| == |b| && k <= |a|
    requires forall i, previousHash :: 0 <= i < |a| ==> step(a[i], previousHash) == step(b[i], previousHash)
    ensures Link(step, a, k) == Link(step, b, k)
  {
    if k > 0 {
      LinksAgree(step, a, b, k - 1);
    }
  }

  lemma StepsAgree(h: Hash, a: Json, b: Json, previousHash: string)
    requires Proper(a) && Proper(b) && a.Obj? && b.Obj? && Alike(a, b)
    ensures HashesOf(h).step(a, previousHash) == HashesOf(h).step(b, previousHash)
  {
    LinkTextsAgree(a, b, previousHash);
  }

  // A text value has the string its normal counterpart has.
  lemma StringsAgree(x: Json, y: Json)
    requires x.Undefined? || FromText(x)
    requires Normal(y) && ContentAt(x) == ContentAt(y)
    ensures x.Str? || y.Str? ==> x == y
  {
  }

  lemma EventIdsAgree(a: Json, b: Json)
    requires a.Obj? && FromText(a) && b.Obj? && Normal(b) && Alike(a, b)
    ensures EventIdOf(a) == EventIdOf(b)
  {
    FromTextIsProper(a);
    NormalIsProper(b);
    ObjectContent(a.fields);
    ObjectContent(b.fields);
    LookupFromText(a.fields, "eventId");
    LookupNormal(b.fields, "eventId");
    assert ContentAt(Get(a, "eventId")) == ContentAt(Get(b, "eventId"));
    StringsAgree(Get(a, "eventId"), Get(b, "eventId"));
  }

  // ---- the verifier decides agreement ----

  // Records that are alike the expected ones have their hashes and ids.
  ghost predicate SameHashes(step: Step, a: seq<Json>, b: seq<Json>) {
    && |a| == |b| && FirstId(a) == FirstId(b) && LastId(a) == LastId(b)
    && forall k :: 0 <= k <= |a| ==> Link(step, a, k) == Link(step, b, k)
  }

  ghost predicate AllAlike(a: seq<Json>, b: seq<Json>) {
    |a| == |b| && forall i :: 0 <= i < |a| ==> Alike(a[i], b[i])
  }

  // Values that come out of a text, or are missing.
  ghost predicate Texts(a: seq<Json>) {
    forall i :: 0 <= i < |a| ==> a[i].Undefined? || FromText(a[i])
  }

  lemma AlikeIsObject(a: Json, b: Json)
    requires a.Undefined? || FromText(a)
    requires b.Obj? && Normal(b) && Alike(a, b)
    ensures a.Obj? && Proper(a) && Proper(b) && EventIdOf(a) == EventIdOf(b)
  {
    assert Content(b).Obj? && a.Obj?;
    FromTextIsProper(a);
    NormalIsProper(b);
    EventIdsAgree(a, b);
  }

  lemma AlikeMeansSameHashes(h: Hash, a: seq<Json>, records: seq<Json>)
    requires Texts(a) && Canon(records) && AllAlike(a, records)
    ensures SameHashes(HashesOf(h).step, a, records)
    ensures forall i :: 0 <= i < |a| ==> a[i].Obj?
  {
    forall i | 0 <= i < |a|
      ensures a[i].Obj? && Proper(a[i]) && Proper(records[i]) && EventIdOf(a[i]) == EventIdOf(records[i])
    {
      AlikeIsObject(a[i], records[i]);
    }
    var step := HashesOf(h).step;
    forall i, previousHash | 0 <= i < |a| ensures step(a[i], previousHash) == step(records[i], previousHash) {
      StepsAgree(h, a[i], records[i], previousHash);
    }
    forall k | 0 <= k <= |a| ensures Link(step, a, k) == Link(step, records, k) {
      LinksAgree(step, a, records, k);
    }
  }

  lemma TextsAreProper(a: seq<Json>)
    requires Texts(a)
    ensures Proper(Arr(a))
  {
    forall i | 0 <= i < |a| ensures Proper(a[i]) {
      if FromText(a[i]) {
        FromTextIsProper(a[i]);
      }
    }
  }

  lemma CanonIsProper(records: seq<Json>)
    requires Canon(records)
    ensures Proper(Arr(records))
  {
    forall i | 0 <= i < |records| ensures Proper(records[i]) {
      NormalIsProper(records[i]);
    }
  }

  // The manifest's checks compare everything but what is free.
  lemma ManifestChecks(m: Manifest, hs: Hashes, w: Window, createdAt: string, records: seq<Json>)
    ensures var built := ManifestOf(hs, w, createdAt, records);
            && HeaderFits(m, w) && RecordsFit(m, |records|, hs.list(records), hs.list(records))
            && EndsFit(m, FirstId(records), LastId(records), FirstHash(hs.step, records),
                       Str(Link(hs.step, records, |records|)))
            <==>
            && m.(ordering := built.ordering, createdAt := built.createdAt) == built
            && m.ordering.Arr? && ORDERING <= m.ordering.items
  {
  }

  // The chain's checks compare the hashes with the built ones, when the links are the same.
  lemma ChainChecks(step: Step, events: seq<Event>, records: seq<Json>)
    requires |events| == |records| && SameHashes(step, RecordsOf(events), records)
    requires AllAlike(RecordsOf(events), records)
    ensures ChainFits(step, events, RecordsOf(events)) <==>
            forall i :: 0 <= i < |events| ==> EventAgrees(events[i], Events(step, records)[i])
  {
    var a := RecordsOf(events);
    forall i | 0 <= i < |events|
      ensures LinkFits(step, events[i], a, i) <==> EventAgrees(events[i], Events(step, records)[i])
    {
      assert a[i] == events[i].record && Alike(a[i], records[i]);
      LinkCheck(step, events[i], a, records, i);
    }
  }

  lemma LinkCheck(step: Step, event: Event, a: seq<Json>, records: seq<Json>, i: nat)
    requires |a| == |records| && i < |a| && SameHashes(step, a, records) && Alike(event.record, records[i])
    ensures LinkFits(step, event, a, i) <==> EventAgrees(event, Events(step, records)[i])
  {
    assert Link(step, a, i) == Link(step, records, i) && Link(step, a, i + 1) == Link(step, records, i + 1);
  }

  // With the same hashes, the checks of the manifest and the events are agreement.
  lemma ChecksAreAgreement(hs: Hashes, m: Manifest, events: seq<Event>, w: Window, createdAt: string,
                           records: seq<Json>)
    requires var a := RecordsOf(events);
             AllAlike(a, records) && SameHashes(hs.step, a, records) && hs.list(a) == hs.list(records)
             && forall i :: 0 <= i < |a| ==> a[i].Obj?
    ensures HeaderFits(m, w) && CheckEvents(hs, m, events, hs.list(records)) == Accepted <==>
            Agrees(m, events, ManifestOf(hs, w, createdAt, records), Events(hs.step, records))
  {
    var a := RecordsOf(events);
    ManifestChecks(m, hs, w, createdAt, records);
    ChainChecks(hs.step, events, records);
    FirstHashesAgree(hs.step, a, records);
    AcceptedMeans(hs, m, events, hs.list(records));
  }

  lemma FirstHashesAgree(step: Step, a: seq<Json>, b: seq<Json>)
    requires SameHashes(step, a, b)
    ensures FirstHash(step, a) == FirstHash(step, b) && Link(step, a, |a|) == Link(step, b, |b|)
  {
    assert a != [] ==> Link(step, a, 1) == Link(step, b, 1);
  }

  // Acceptance, when no record is null.
  lemma AcceptedMeans(hs: Hashes, m: Manifest, events: seq<Event>, expected: string)
    requires forall i :: 0 <= i < |events| ==> RecordsOf(events)[i].Obj?
    ensures var a := RecordsOf(events);
            CheckEvents(hs, m, events, expected) == Accepted <==>
            && RecordsFit(m, |a|, hs.list(a), expected) && ChainFits(hs.step, events, a)
            && EndsFit(m, FirstId(a), LastId(a), FirstHash(hs.step, a), Str(Link(hs.step, a, |a|)))
  {
    hide RecordsFit, ChainFits, EndsFit, Link;
    var a := RecordsOf(events);
    assert a != [] ==> a[0].Obj? && a[|a| - 1].Obj?;
  }

  // Records that are alike the expected ones pass exactly when everything else agrees too.
  lemma AlikeDecide(hs: Hashes, b: Bundle, w: Window, createdAt: string, records: seq<Json>)
    requires b.events.Some? && None !in b.events.value
    requires var a := RecordsOf(Solid(b.events.value));
             AllAlike(a, records) && SameHashes(hs.step, a, records) && hs.list(a) == hs.list(records)
             && forall i :: 0 <= i < |a| ==> a[i].Obj?
    ensures Check(hs, b, w, hs.list(records)) == Accepted <==>
            AgreesWith(b, ManifestOf(hs, w, createdAt, records), Events(hs.step, records))
  {
    ChecksAreAgreement(hs, b.manifest, Solid(b.events.value), w, createdAt, records);
  }

  // The hashes of lists: alike lists have the same one.
  lemma ListHashes(h: Hash, a: seq<Json>, records: seq<Json>)
    requires Texts(a) && Canon(records)
    ensures HashesOf(h).list(records) == h(ListText(records)) && HashesOf(h).list(a) == h(ListText(a))
    ensures ListText(a) == ListText(records) <==> AllAlike(a, records)
  {
    TextsAreProper(a);
    CanonIsProper(records);
    ListTextDecides(a, records);
  }

  /**
   * verifyBundle accepts every stored bundle that agrees with what buildBundle makes from the
   * expected records. When it accepts any other, two different lists of records have texts with the
   * same hash, and here they are.
   */
  lemma VerifyDecides(h: Hash, b: Bundle, w: Window, createdAt: string, records: seq<Json>)
    requires Stored(b) && Canon(records)
    ensures var hs := HashesOf(h);
            var verdict := Check(hs, b, w, h(ListText(records)));
            var agrees := AgreesWith(b, ManifestOf(hs, w, createdAt, records), Events(hs.step, records));
            && (agrees ==> verdict == Accepted)
            && (verdict == Accepted ==>
                  agrees || Collision(h, ListText(RecordsOf(Solid(b.events.value))), ListText(records)))
  {
    var hs := HashesOf(h);
    if b.events.Some? && None !in b.events.value {
      var a := RecordsOf(Solid(b.events.value));
      ListHashes(h, a, records);
      if AllAlike(a, records) {
        AlikeMeansSameHashes(h, a, records);
        AlikeDecide(hs, b, w, createdAt, records);
      } else {
        UnlikeDisagree(hs, b, w, createdAt, records);
      }
    }
  }

  // Records that are not alike the expected ones do not agree, and pass only with the hash of theirs.
  lemma UnlikeDisagree(hs: Hashes, b: Bundle, w: Window, createdAt: string, records: seq<Json>)
    requires b.events.Some? && None !in b.events.value && !AllAlike(RecordsOf(Solid(b.events.value)), records)
    ensures !AgreesWith(b, ManifestOf(hs, w, createdAt, records), Events(hs.step, records))
    ensures Check(hs, b, w, hs.list(records)) == Accepted ==>
              hs.list(RecordsOf(Solid(b.events.value))) == hs.list(records)
  {
    var a := RecordsOf(Solid(b.events.value));
    if |a| == |records| {
      ghost var i :| 0 <= i < |a| && !Alike(a[i], records[i]);
      assert !EventAgrees(Solid(b.events.value)[i], Events(hs.step, records)[i]);
    }
  }

  // ---- what was sealed is accepted ----

  lemma ManifestKeysDiffer(m: Manifest)
    ensures DistinctKeys(m.Entries())
  {
    var fs := m.Entries();
    KeyLengths(m);
    assert fs[1].key[0] == 'a' && fs[3].key[0] == 'w' && fs[9].key[0] == 'l';
    assert fs[4].key[0] == 'w' && fs[6].key[0] == 'c';
    assert fs[10].key[2] == 'r' && fs[11].key[2] == 'n';
  }

  lemma KeyLengths(m: Manifest)
    ensures forall i :: 0 <= i < 13 ==> |m.Entries()[i].key| == [7, 11, 4, 11, 9, 8, 9, 10, 12, 11, 14, 14, 13][i]
  {
  }

  // Reading a manifest that was written gives its properties back.
  lemma ManifestReads(m: Manifest, k: nat)
    requires k < 13
    ensures Get(m.ToJson(), m.Entries()[k].key) == m.Entries()[k].value
  {
    ManifestKeysDiffer(m);
    DefinedKeepsLookups(m.Entries(), m.Entries()[k].key);
    LookupFinds(m.Entries(), k);
  }

  // A property of the content is the content of the property.
  lemma GetContent(v: Json, k: string)
    requires v.Obj? && Proper(v)
    ensures Get(Content(v), k) == ContentAt(Get(v, k))
  {
    ObjectContent(v.fields);
  }

  lemma {:induction false} ContentIsText(v: Json)
    requires Normal(v)
    ensures FromText(Scrub(v))
  {
    match v
    case Arr(items) =>
      forall i | 0 <= i < |items| ensures FromText(ScrubItems(items)[i]) { ContentIsText(items[i]); }
    case Obj(fields) =>
      OrderedIsDistinct(fields);
      forall i | 0 <= i < |fields| ensures FromText(ScrubFields(fields)[i].value) { ContentIsText(fields[i].value); }
      assert forall i :: 0 <= i < |fields| ==> ScrubFields(fields)[i].key == fields[i].key;
    case _ =>
  }

  lemma {:induction false} TextIsScrubbed(v: Json)
    requires FromText(v)
    ensures Scrub(v) == v
  {
    match v
    case Arr(items) =>
      forall i | 0 <= i < |items| ensures Scrub(items[i]) == items[i] { TextIsScrubbed(items[i]); }
      assert ScrubItems(items) == items;
    case Obj(fields) =>
      forall i | 0 <= i < |fields| ensures Scrub(fields[i].value) == fields[i].value {
        TextIsScrubbed(fields[i].value);
      }
      assert ScrubFields(fields) == fields;
    case _ =>
  }

  // What was read back is alike what was written, and comes out of a text.
  lemma ContentIsAlike(v: Json)
    requires Proper(v)
    ensures Alike(Content(v), v) && FromText(Content(v))
  {
    NormalizeIsNormal(v);
    ContentIsText(Normalize(v));
    ContentIsSettled(v);
    TextIsScrubbed(Content(v));
  }

  // A value the text keeps as it is.
  ghost predicate Kept(v: Json) { Proper(v) && ContentAt(v) == v }

  lemma ManifestIsProper(m: Manifest)
    requires forall k :: 0 <= k < 13 ==> Kept(m.Entries()[k].value)
    ensures Proper(m.ToJson())
  {
    ManifestKeysDiffer(m);
    DefinedIsSubset(m.Entries());
    var fs := Defined(m.Entries());
    forall i | 0 <= i < |fs| ensures Proper(fs[i].value) {
      assert fs[i] in m.Entries();
    }
  }

  lemma ManifestRoundTrip(m: Manifest)
    requires forall k :: 0 <= k < 13 ==> Kept(m.Entries()[k].value)
    ensures ReadManifest(Content(m.ToJson())) == m
  {
    var v := Content(m.ToJson());
    ManifestIsProper(m);
    forall k: nat | k < 13 ensures Get(v, m.Entry(k).key) == m.Entry(k).value {
      ManifestReads(m, k);
      GetContent(m.ToJson(), m.Entries()[k].key);
      assert Kept(m.Entries()[k].value);
    }
    ManifestFromEntries(k => Get(v, k), m);
  }

  lemma ManifestFromEntries(at: string -> Json, m: Manifest)
    requires forall k: nat :: k < 13 ==> at(m.Entry(k).key) == m.Entry(k).value
    ensures ManifestFrom(at) == m
  {
    var back := ManifestFrom(at);
    assert back.version == m.Entry(0).value && back.archiveType == m.Entry(1).value && back.date == m.Entry(2).value;
    assert back.windowStart == m.Entry(3).value && back.windowEnd == m.Entry(4).value;
    assert back.ordering == m.Entry(5).value && back.createdAt == m.Entry(6).value;
    assert back.eventCount == m.Entry(7).value && back.firstEventId == m.Entry(8).value;
    assert back.lastEventId == m.Entry(9).value && back.firstEventHash == m.Entry(10).value;
    assert back.finalEventHash == m.Entry(11).value && back.recordsSha256 == m.Entry(12).value;
  }

  lemma EventReads(e: Event)
    ensures DistinctKeys(e.ToJson().fields)
    ensures Get(e.ToJson(), "record") == e.record && Get(e.ToJson(), "previousHash") == e.previousHash
    ensures Get(e.ToJson(), "eventHash") == e.eventHash
  {
    var fs := e.ToJson().fields;
    assert |fs[0].key| == 6 && |fs[1].key| == 12 && |fs[2].key| == 9;
    LookupFinds(fs, 0);
    LookupFinds(fs, 1);
    LookupFinds(fs, 2);
  }

  // An event whose record was read back from its text.
  function Back(e: Event): Event { e.(record := Content(e.record)) }

  lemma EventRoundTrip(e: Event)
    requires Proper(e.record) && e.record.Obj? && e.previousHash.Str? && e.eventHash.Str?
    ensures Proper(e.ToJson()) && ReadEvent(Content(e.ToJson())) == Some(Back(e))
  {
    var v := e.ToJson();
    EventReads(e);
    assert Proper(v);
    GetContent(v, "record");
    GetContent(v, "previousHash");
    GetContent(v, "eventHash");
  }

  lemma BundleReads(m: Manifest, events: seq<Event>)
    ensures var v := BundleJson(m, events);
            DistinctKeys(v.fields) && Get(v, "manifest") == m.ToJson() && Get(v, "events").Arr?
            && Get(v, "events") == v.fields[1].value
  {
    var fs := BundleJson(m, events).fields;
    assert |fs[0].key| == 8 && |fs[1].key| == 6;
    LookupFinds(fs, 0);
    LookupFinds(fs, 1);
  }

  lemma BundleFrom(v: Json, m: Manifest, items: seq<Json>, events: seq<Event>)
    requires ReadManifest(Get(v, "manifest")) == m && Get(v, "events") == Arr(items)
    requires |items| == |events| && forall i :: 0 <= i < |events| ==> ReadEvent(items[i]) == Some(Back(events[i]))
    ensures var b := ReadBundle(v);
            && b.manifest == m && b.events.Some? && |b.events.value| == |events|
            && forall i :: 0 <= i < |events| ==> b.events.value[i] == Some(Back(events[i]))
  {
  }

  // The two parts of a bundle, after writing and reading.
  lemma BundleParts(m: Manifest, events: seq<Event>)
    requires Proper(BundleJson(m, events))
    ensures var v := BundleJson(m, events);
            && Get(Content(v), "manifest") == Content(m.ToJson())
            && Get(Content(v), "events") == Content(v.fields[1].value)
  {
    BundleReads(m, events);
    GetContent(BundleJson(m, events), "manifest");
    GetContent(BundleJson(m, events), "events");
  }

  lemma BundleIsProper(m: Manifest, events: seq<Event>)
    requires Proper(m.ToJson()) && forall i :: 0 <= i < |events| ==> Proper(events[i].ToJson())
    ensures Proper(BundleJson(m, events))
  {
    BundleReads(m, events);
    var fs := BundleJson(m, events).fields;
    assert Proper(fs[0].value) && Proper(fs[1].value);
  }

  lemma BundleRoundTrip(m: Manifest, events: seq<Event>)
    requires Proper(m.ToJson()) && ReadManifest(Content(m.ToJson())) == m
    requires forall i :: 0 <= i < |events| ==>
               Proper(events[i].ToJson()) && ReadEvent(Content(events[i].ToJson())) == Some(Back(events[i]))
    ensures Proper(BundleJson(m, events))
    ensures var b := ReadBundle(Content(BundleJson(m, events)));
            && b.manifest == m && b.events.Some? && |b.events.value| == |events|
            && forall i :: 0 <= i < |events| ==> b.events.value[i] == Some(Back(events[i]))
  {
    BundleIsProper(m, events);
    BundleParts(m, events);
    var items := BundleJson(m, events).fields[1].value.items;
    ListContent(items);
    var read := Content(Arr(items)).items;
    forall i | 0 <= i < |events| ensures ReadEvent(read[i]) == Some(Back(events[i])) {
      assert items[i] == events[i].ToJson();
    }
    BundleFrom(Content(BundleJson(m, events)), m, read, events);
  }

  lemma ManifestOfIsKept(hs: Hashes, w: Window, createdAt: string, records: seq<Json>)
    ensures var m := ManifestOf(hs, w, createdAt, records); forall k :: 0 <= k < 13 ==> Kept(m.Entries()[k].value)
  {
    OrderingIsKept();
    IdsAreKept(records);
    var fs := ManifestOf(hs, w, createdAt, records).Entries();
    forall k | 0 <= k < 13 ensures Kept(fs[k].value) {
      assert k == 5 || fs[k].value.Str? || fs[k].value.Number? || fs[k].value.Undefined?;
    }
  }

  lemma IdsAreKept(records: seq<Json>)
    ensures FirstId(records).Str? || FirstId(records).Undefined?
    ensures LastId(records).Str? || LastId(records).Undefined?
  {
  }

  lemma OrderingIsKept()
    ensures Kept(Arr(ORDERING))
  {
    assert Normalize(Arr(ORDERING)).items == ORDERING;
    assert ScrubItems(ORDERING) == ORDERING;
  }

  function SealedText(h: Hash, w: Window, createdAt: string, records: seq<Json>): string {
    var hs := HashesOf(h);
    StableStringify(BundleJson(ManifestOf(hs, w, createdAt, records), Events(hs.step, records))) + "\n"
  }

  // What reading a sealed bundle gives back agrees with it.
  lemma SealedReads(hs: Hashes, w: Window, createdAt: string, records: seq<Json>)
    requires Canon(records)
    ensures var m, events := ManifestOf(hs, w, createdAt, records), Events(hs.step, records);
            var b := ReadBundle(Content(BundleJson(m, events)));
            Proper(BundleJson(m, events)) && Stored(b) && AgreesWith(b, m, events)
  {
    var m, events := ManifestOf(hs, w, createdAt, records), Events(hs.step, records);
    ManifestOfIsKept(hs, w, createdAt, records);
    ManifestIsProper(m);
    ManifestRoundTrip(m);
    CanonIsProper(records);
    forall i | 0 <= i < |events|
      ensures Proper(events[i].ToJson()) && ReadEvent(Content(events[i].ToJson())) == Some(Back(events[i]))
      ensures EventAgrees(Back(events[i]), events[i]) && FromText(Back(events[i]).record)
    {
      EventRoundTrip(events[i]);
      ContentIsAlike(records[i]);
    }
    BundleRoundTrip(m, events);
    BackAgrees(ReadBundle(Content(BundleJson(m, events))), m, events);
  }

  lemma BackAgrees(b: Bundle, m: Manifest, events: seq<Event>)
    requires b.manifest == m && b.events.Some? && |b.events.value| == |events| && m.ordering == Arr(ORDERING)
    requires forall i :: 0 <= i < |events| ==> b.events.value[i] == Some(Back(events[i]))
    requires forall i :: 0 <= i < |events| ==>
               EventAgrees(Back(events[i]), events[i]) && FromText(Back(events[i]).record)
    ensures Stored(b) && AgreesWith(b, m, events)
  {
  }

  /**
   * The text sealed for a list of canonical records, with its line feed, parses to a bundle that
   * verifyBundle accepts for the same records.
   */
  lemma SealedIsAccepted(h: Hash, w: Window, createdAt: string, records: seq<Json>)
    requires Canon(records)
    ensures var back := Parse(SealedText(h, w, createdAt, records));
            back.Some? && Stored(ReadBundle(back.value))
            && Check(HashesOf(h), ReadBundle(back.value), w, h(ListText(records))) == Accepted
  {
    var hs := HashesOf(h);
    var json := BundleJson(ManifestOf(hs, w, createdAt, records), Events(hs.step, records));
    SealedReads(hs, w, createdAt, records);
    StableTextReads(json);
    VerifyDecides(h, ReadBundle(Content(json)), w, createdAt, records);
  }

  // ---- whatever text an archive holds ----

  // The fields of any object: distinct keys, and every index key after smaller index keys only.
  ghost predicate Shaped(fs: seq<Field>) {
    && DistinctKeys(fs)
    && forall i, j :: 0 <= i < j < |fs| && IsIndex(fs[j].key) ==> KeyBefore(fs[i].key, fs[j].key)
  }

  // The field may stand before the others.
  ghost predicate Leads(f: Field, fs: seq<Field>) {
    forall i :: 0 <= i < |fs| ==> fs[i].key != f.key && (IsIndex(fs[i].key) ==> KeyBefore(f.key, fs[i].key))
  }

  lemma LeadingKeepsShape(f: Field, fs: seq<Field>)
    requires Shaped(fs) && Leads(f, fs)
    ensures Shaped([f] + fs)
  {
    var r := [f] + fs;
    assert forall i :: 0 < i < |r| ==> r[i] == fs[i - 1];
  }

  lemma TailIsShaped(fs: seq<Field>)
    requires Shaped(fs) && fs != []
    ensures Shaped(fs[1..]) && Leads(fs[0], fs[1..])
  {
    assert forall i :: 0 <= i < |fs[1..]| ==> fs[1..][i] == fs[i + 1];
  }

  // An index key before the first key is before every index key.
  lemma SmallerIndexLeads(f: Field, fs: seq<Field>)
    requires Shaped(fs) && fs != [] && IsIndex(f.key) && KeyBefore(f.key, fs[0].key)
    ensures Leads(f, fs)
  {
    forall i | 0 <= i < |fs| ensures fs[i].key != f.key && (IsIndex(fs[i].key) ==> KeyBefore(f.key, fs[i].key)) {
      KeyBeforeIsTotal(f.key, fs[0].key);
      KeyBeforeIsTotal(f.key, fs[i].key);
      if i > 0 && IsIndex(fs[i].key) {
        KeyBeforeChains(f.key, fs[0].key, fs[i].key);
      }
    }
  }

  lemma {:induction false} PutKeepsShape(fs: seq<Field>, f: Field)
    requires Shaped(fs)
    ensures Shaped(Put(fs, f))
    ensures forall g :: g in Put(fs, f) ==> g == f || g in fs
  {
    if fs != [] {
      assert fs == [fs[0]] + fs[1..];
      TailIsShaped(fs);
      if fs[0].key == f.key {
        LeadingKeepsShape(f, fs[1..]);
      } else if IsIndex(f.key) && KeyBefore(f.key, fs[0].key) {
        SmallerIndexLeads(f, fs);
        LeadingKeepsShape(f, fs);
      } else {
        PutKeepsShape(fs[1..], f);
        KeyBeforeIsTotal(f.key, fs[0].key);
        PutLeads(fs, f);
        LeadingKeepsShape(fs[0], Put(fs[1..], f));
      }
    }
  }

  lemma PutLeads(fs: seq<Field>, f: Field)
    requires Shaped(fs) && fs != [] && f.key != fs[0].key && (IsIndex(f.key) ==> KeyBefore(fs[0].key, f.key))
    requires forall g :: g in Put(fs[1..], f) ==> g == f || g in fs[1..]
    ensures Leads(fs[0], Put(fs[1..], f))
  {
    TailIsShaped(fs);
    var rest := Put(fs[1..], f);
    forall i | 0 <= i < |rest|
      ensures rest[i].key != fs[0].key && (IsIndex(rest[i].key) ==> KeyBefore(fs[0].key, rest[i].key))
    {
      assert rest[i] in rest;
      if rest[i] != f {
        ghost var j :| 0 <= j < |fs[1..]| && fs[1..][j] == rest[i];
      }
    }
  }

  ghost predicate AllFromText(vs: seq<Json>) { forall i :: 0 <= i < |vs| ==> FromText(vs[i]) }

  ghost predicate FieldsFromText(fs: seq<Field>) { forall f :: f in fs ==> FromText(f.value) }

  lemma {:induction false} ValueIsFromText(s: string)
    ensures ReadValue(s).Some? ==> FromText(ReadValue(s).value.0)
    decreases |s|, 0
  {
    if s != "" && s[0] == '[' && !(|s| > 1 && s[1] == ']') {
      ItemsAreFromText(s[1..], []);
    } else if s != "" && s[0] == '{' && !(|s| > 1 && s[1] == '}') {
      FieldsAreFromText(s[1..], []);
    }
  }

  lemma {:induction false} ItemsAreFromText(s: string, done: seq<Json>)
    requires AllFromText(done)
    ensures ReadItems(s, done).Some? ==> FromText(ReadItems(s, done).value.0)
    decreases |s|, 1
  {
    ValueIsFromText(s);
    match ReadValue(s)
    case None =>
    case Some((v, rest)) =>
      assert AllFromText(done + [v]);
      if rest != "" && rest[0] == ',' {
        ItemsAreFromText(rest[1..], done + [v]);
      }
  }

  lemma {:induction false} FieldsAreFromText(s: string, done: seq<Field>)
    requires Shaped(done) && FieldsFromText(done)
    ensures ReadFields(s, done).Some? ==> FromText(ReadFields(s, done).value.0)
    decreases |s|, 1
  {
    FieldIsFromText(s);
    match ReadField(s)
    case None =>
    case Some((f, rest)) =>
      PutKeepsShape(done, f);
      assert FieldsFromText(Put(done, f));
      if rest != "" && rest[0] == ',' {
        FieldsAreFromText(rest[1..], Put(done, f));
      }
  }

  lemma {:induction false} FieldIsFromText(s: string)
    ensures ReadField(s).Some? ==> FromText(ReadField(s).value.0.value)
    decreases |s|, 0
  {
    if s != "" && s[0] == '"' {
      match ReadBody(s[1..])
      case None =>
      case Some((key, rest)) =>
        if rest != "" && rest[0] == ':' {
          ValueIsFromText(rest[1..]);
        }
    }
  }

  /** Whatever text an archive decrypts to, what the verifier reads from it is a stored bundle. */
  lemma ParsedIsStored(text: string)
    requires Parse(text).Some?
    ensures FromText(Parse(text).value) && Stored(ReadBundle(Parse(text).value))
  {
    ValueIsFromText(text);
    var v := Parse(text).value;
    if v.Obj? {
      LookupFromText(v.fields, "events");
      var events := Get(v, "events");
      if events.Arr? {
        forall i | 0 <= i < |events.items| && !Nullish(events.items[i])
          ensures var r := ReadEvent(events.items[i]).value.record; r.Undefined? || FromText(r)
        {
          if events.items[i].Obj? {
            LookupFromText(events.items[i].fields, "record");
          }
        }
      }
    }
  }

  /** The verifier's verdict on a text, for the records the database holds. */
  predicate AcceptsText(h: Hash, w: Window, text: string, records: seq<Json>) {
    var v := Parse(text);
    v.Some? && Check(HashesOf(h), ReadBundle(v.value), w, h(ListText(records))) == Accepted
  }

  // Two lists of records that stand for the same archive.
  ghost predicate SameArchive(h: Hash, a: seq<Json>, b: seq<Json>) {
    AllAlike(a, b) || exists x, y :: Collision(h, x, y)
  }

  /** A text accepted for two lists of records shows that they are alike one by one, or a collision. */
  lemma AcceptedForBoth(h: Hash, w: Window, text: string, a: seq<Json>, b: seq<Json>)
    requires Canon(a) && Canon(b) && AcceptsText(h, w, text, a) && AcceptsText(h, w, text, b)
    ensures SameArchive(h, a, b)
  {
    var bundle := ReadBundle(Parse(text).value);
    ParsedIsStored(text);
    VerifyDecides(h, bundle, w, "", a);
    VerifyDecides(h, bundle, w, "", b);
    if !exists x, y :: Collision(h, x, y) {
      var hs, events := HashesOf(h), Solid(bundle.events.value);
      forall i | 0 <= i < |a| ensures i < |b| && Alike(a[i], b[i]) {
        assert EventAgrees(events[i], Events(hs.step, a)[i]);
        assert EventAgrees(events[i], Events(hs.step, b)[i]);
      }
    }
  }

  lemma CanonicalRecordsAreCanon(records: seq<Record>)
    requires forall r :: r in records ==> Proper(Obj(r.fields))
    ensures Canon(CanonicalRecords(records))
  {
    var sorted := SortBy(records, RecordBefore);
    SortKeepsElements(records, RecordBefore);
    forall i | 0 <= i < |sorted| ensures Normal(Normalize(Obj(sorted[i].fields))) {
      SameMultisetSameMembers(sorted, records, sorted[i]);
      NormalizeIsNormal(Obj(sorted[i].fields));
    }
  }
}
