/**
 * The canonical form a value is brought into before it is hashed: dates and object ids become
 * strings, undefined fields go, and keys are sorted. An object is the list of its fields in the
 * order they are enumerated in.
 */
module CanonicalJson {
  import opened Sorting

  // ---- numbers, as in section 6 of RFC 8259; how a double is formatted is not modelled ----

  predicate Digit(c: char) { '0' <= c <= '9' }

  predicate NumberChar(c: char) { Digit(c) || c in "+-.eE" }

  // The digits a text starts with.
  function Digits(t: string): (n: nat)
    ensures n <= |t| && (forall i :: 0 <= i < n ==> Digit(t[i])) && (n < |t| ==> !Digit(t[n]))
  {
    if t == "" || !Digit(t[0]) then 0 else 1 + Digits(t[1..])
  }

  predicate OnlyNumberChars(t: string) { forall i :: 0 <= i < |t| ==> NumberChar(t[i]) }

  // An exponent, or nothing.
  predicate IsExponent(t: string): (r: bool)
    ensures r ==> OnlyNumberChars(t)
  {
    t == "" ||
    (t[0] in "eE" &&
     var digits := if |t| > 1 && t[1] in "+-" then t[2..] else t[1..];
     digits != "" && Digits(digits) == |digits|)
  }

  // A fraction and an exponent, either of which may be missing.
  predicate IsFraction(t: string): (r: bool)
    ensures r ==> OnlyNumberChars(t)
  {
    if t == "" || t[0] != '.' then IsExponent(t)
    else
      var n := Digits(t[1..]);
      n > 0 && IsExponent(t[1..][n..])
  }

  // Digits without a leading zero, then a fraction and an exponent.
  predicate IsUnsigned(t: string): (r: bool)
    ensures r ==> OnlyNumberChars(t) && t != "" && Digit(t[0])
  {
    var n := Digits(t);
    n > 0 && (t[0] == '0' ==> n == 1) && IsFraction(t[n..])
  }

  predicate IsNumber(t: string): (r: bool)
    ensures r ==> OnlyNumberChars(t) && t != "" && (Digit(t[0]) || t[0] == '-')
  {
    if t != "" && t[0] == '-' then IsUnsigned(t[1..]) else IsUnsigned(t)
  }

  type NumberText = t: string | IsNumber(t) witness "0"

  datatype Json =
    | Undefined
    | Null
    | Bool(b: bool)
    | Number(text: NumberText)
    | NotFinite
    | Str(s: string)
    | Date(iso: string)
    | ObjectId(hex: string)
    | Arr(items: seq<Json>)
    | Obj(fields: seq<Field>)

  datatype Field = Field(key: string, value: Json)

  // ---- the order of keys ----

  // Ranks a character so that strings compare as their sequences of UTF-16 code units do:
  // characters above 0xFFFF start with a surrogate, which is below 0xE000.
  function Unit(c: char): int {
    var n := c as int;
    if n < 0xD800 then n else if n >= 0x10000 then n - 0x10000 + 0xD800 else n + 0x110000
  }

  predicate Precedes(s: string, t: string) {
    t != "" && (s == "" || Unit(s[0]) < Unit(t[0]) || (s[0] == t[0] && Precedes(s[1..], t[1..])))
  }

  lemma {:induction false} PrecedesIsTotal(s: string, t: string)
    ensures Precedes(s, t) ==> !Precedes(t, s) && s != t
    ensures s != t ==> Precedes(s, t) || Precedes(t, s)
  {
    if s != "" && t != "" {
      PrecedesIsTotal(s[1..], t[1..]);
      assert s == [s[0]] + s[1..] && t == [t[0]] + t[1..];
      assert Unit(s[0]) == Unit(t[0]) ==> s[0] == t[0];
    }
  }

  lemma {:induction false} PrecedesChains(s: string, t: string, u: string)
    requires Precedes(s, t) && Precedes(t, u)
    ensures Precedes(s, u)
  {
    if s != "" && s[0] == t[0] == u[0] && Precedes(s[1..], t[1..]) && Precedes(t[1..], u[1..]) {
      PrecedesChains(s[1..], t[1..], u[1..]);
    }
  }

  // An array index key: an integer from 0 to 2^32 - 2 in its usual notation.
  predicate IsIndex(k: string) {
    && k != "" && (forall i :: 0 <= i < |k| ==> '0' <= k[i] <= '9')
    && (k[0] == '0' ==> |k| == 1)
    && (|k| < 10 || (|k| == 10 && Precedes(k, "4294967295")))
  }

  // The order in which an object built from sorted entries enumerates its keys: index keys by
  // value, then the other keys.
  predicate KeyBefore(k: string, l: string) {
    if IsIndex(k) && IsIndex(l) then |k| < |l| || (|k| == |l| && Precedes(k, l))
    else IsIndex(k) || (!IsIndex(l) && Precedes(k, l))
  }

  predicate KeyPrecedes(a: Field, b: Field) { Precedes(a.key, b.key) }

  lemma KeyBeforeIsTotal(k: string, l: string)
    ensures KeyBefore(k, l) ==> !KeyBefore(l, k) && k != l
    ensures k != l ==> KeyBefore(k, l) || KeyBefore(l, k)
  {
    PrecedesIsTotal(k, l);
  }

  lemma KeyBeforeChains(k: string, l: string, m: string)
    requires KeyBefore(k, l) && KeyBefore(l, m)
    ensures KeyBefore(k, m)
  {
    if Precedes(k, l) && Precedes(l, m) {
      PrecedesChains(k, l, m);
    }
  }

  lemma KeyPrecedesIsStrictWeak()
    ensures StrictWeak(KeyPrecedes)
  {
    forall x: Field, y: Field | KeyPrecedes(x, y) ensures !KeyPrecedes(y, x) {
      PrecedesIsTotal(x.key, y.key);
    }
    forall x: Field, y: Field, z: Field | KeyPrecedes(x, z) ensures KeyPrecedes(x, y) || KeyPrecedes(y, z) {
      PrecedesIsTotal(x.key, y.key);
      if Precedes(y.key, x.key) {
        PrecedesChains(y.key, x.key, z.key);
      }
    }
  }

  // ---- objects ----

  ghost predicate DistinctKeys(fs: seq<Field>) {
    forall i, j :: 0 <= i < j < |fs| ==> fs[i].key != fs[j].key
  }

  // The enumeration order of an object made from sorted entries.
  ghost predicate Ordered(fs: seq<Field>) {
    forall i, j :: 0 <= i < j < |fs| ==> KeyBefore(fs[i].key, fs[j].key)
  }

  function Lookup(fs: seq<Field>, k: string): Json {
    if fs == [] then Undefined else if fs[0].key == k then fs[0].value else Lookup(fs[1..], k)
  }

  // Assigning one property: an existing key keeps its place, a new index key goes among the index
  // keys, any other new key goes last.
  function Put(fs: seq<Field>, f: Field): seq<Field> {
    if fs == [] then [f]
    else if fs[0].key == f.key then [f] + fs[1..]
    else if IsIndex(f.key) && KeyBefore(f.key, fs[0].key) then [f] + fs
    else [fs[0]] + Put(fs[1..], f)
  }

  function FromEntries(entries: seq<Field>): seq<Field> {
    if entries == [] then [] else Put(FromEntries(entries[..|entries| - 1]), entries[|entries| - 1])
  }

  // A first field before everything that came after it, and before a new one.
  lemma ConsKeepsOrdered(fs: seq<Field>, rest: seq<Field>, f: Field)
    requires fs != [] && Ordered(fs) && Ordered(rest) && KeyBefore(fs[0].key, f.key)
    requires multiset(rest) == multiset(fs[1..]) + multiset{f}
    ensures Ordered([fs[0]] + rest)
  {
    forall i | 0 <= i < |rest| ensures KeyBefore(fs[0].key, rest[i].key) {
      assert rest[i] in multiset(rest);
      assert rest[i] == f || rest[i] in fs[1..];
    }
  }

  lemma {:induction false} PutKeepsOrdered(fs: seq<Field>, f: Field)
    requires Ordered(fs)
    requires forall i :: 0 <= i < |fs| ==>
               KeyBefore(fs[i].key, f.key) || (IsIndex(f.key) && fs[i].key != f.key)
    ensures Ordered(Put(fs, f)) && multiset(Put(fs, f)) == multiset(fs) + multiset{f}
  {
    if fs != [] {
      KeyBeforeIsTotal(fs[0].key, f.key);
      assert fs == [fs[0]] + fs[1..];
      if KeyBefore(f.key, fs[0].key) {
        forall i | 0 < i < |fs| ensures KeyBefore(f.key, fs[i].key) {
          KeyBeforeChains(f.key, fs[0].key, fs[i].key);
        }
      } else {
        PutKeepsOrdered(fs[1..], f);
        ConsKeepsOrdered(fs, Put(fs[1..], f), f);
      }
    }
  }

  lemma {:induction false} PutAtEnd(fs: seq<Field>, f: Field)
    requires forall i :: 0 <= i < |fs| ==> KeyBefore(fs[i].key, f.key)
    ensures Put(fs, f) == fs + [f]
  {
    if fs != [] {
      KeyBeforeIsTotal(fs[0].key, f.key);
      PutAtEnd(fs[1..], f);
    }
  }

  lemma {:induction false} FromSortedEntries(entries: seq<Field>)
    requires forall i, j :: 0 <= i < j < |entries| ==> Precedes(entries[i].key, entries[j].key)
    ensures Ordered(FromEntries(entries)) && multiset(FromEntries(entries)) == multiset(entries)
  {
    if entries != [] {
      var init, f := entries[..|entries| - 1], entries[|entries| - 1];
      FromSortedEntries(init);
      assert entries == init + [f];
      var fs := FromEntries(init);
      forall i | 0 <= i < |fs| ensures KeyBefore(fs[i].key, f.key) || (IsIndex(f.key) && fs[i].key != f.key) {
        SameMultisetSameMembers(fs, init, fs[i]);
        PrecedesIsTotal(fs[i].key, f.key);
      }
      PutKeepsOrdered(fs, f);
    }
  }

  // The fields of the object that sorted entries make.
  function Canonical(entries: seq<Field>): seq<Field> {
    FromEntries(SortBy(entries, KeyPrecedes))
  }

  lemma CanonicalIsOrdered(entries: seq<Field>)
    requires DistinctKeys(entries)
    ensures Ordered(Canonical(entries)) && multiset(Canonical(entries)) == multiset(entries)
  {
    var sorted := SortBy(entries, KeyPrecedes);
    KeyPrecedesIsStrictWeak();
    SortSorts(entries, KeyPrecedes);
    SortKeepsElements(entries, KeyPrecedes);
    PermutationKeepsDistinctKeys(entries, sorted);
    forall i, j | 0 <= i < j < |sorted| ensures Precedes(sorted[i].key, sorted[j].key) {
      assert !KeyPrecedes(sorted[j], sorted[i]);
      PrecedesIsTotal(sorted[i].key, sorted[j].key);
    }
    FromSortedEntries(sorted);
  }

  lemma {:induction false} PermutationKeepsDistinctKeys(a: seq<Field>, b: seq<Field>)
    requires multiset(a) == multiset(b) && DistinctKeys(a)
    ensures DistinctKeys(b)
  {
    forall i, j | 0 <= i < j < |b| ensures b[i].key != b[j].key {
      SameMultisetSameMembers(a, b, b[i]);
      SameMultisetSameMembers(a, b, b[j]);
      if b[i] == b[j] {
        TwiceMeansTwo(b, i, j);
        OnceMeansOne(a, b[i]);
      }
    }
  }

  lemma {:induction false} OnceMeansOne(a: seq<Field>, f: Field)
    requires DistinctKeys(a)
    ensures multiset(a)[f] <= 1
  {
    if a != [] {
      OnceMeansOne(a[1..], f);
      assert a == [a[0]] + a[1..];
      assert a[0] !in a[1..] by {
        forall i | 0 <= i < |a[1..]| ensures a[1..][i] != a[0] {
          assert a[i + 1].key != a[0].key;
        }
      }
      assert a[0] !in multiset(a[1..]);
    }
  }

  lemma {:induction false} LookupFinds(fs: seq<Field>, i: nat)
    requires DistinctKeys(fs) && i < |fs|
    ensures Lookup(fs, fs[i].key) == fs[i].value
  {
    if i > 0 {
      LookupFinds(fs[1..], i - 1);
    }
  }

  lemma {:induction false} LookupMisses(fs: seq<Field>, k: string)
    requires forall i :: 0 <= i < |fs| ==> fs[i].key != k
    ensures Lookup(fs, k) == Undefined
  {
    if fs != [] {
      LookupMisses(fs[1..], k);
    }
  }

  lemma LookupOfPermutation(a: seq<Field>, b: seq<Field>, k: string)
    requires multiset(a) == multiset(b) && DistinctKeys(a)
    ensures Lookup(a, k) == Lookup(b, k)
  {
    PermutationKeepsDistinctKeys(a, b);
    if i :| 0 <= i < |a| && a[i].key == k {
      SameMultisetSameMembers(a, b, a[i]);
      ghost var j :| 0 <= j < |b| && b[j] == a[i];
      LookupFinds(a, i);
      LookupFinds(b, j);
    } else {
      forall j | 0 <= j < |b| ensures b[j].key != k {
        SameMultisetSameMembers(a, b, b[j]);
      }
      LookupMisses(a, k);
      LookupMisses(b, k);
    }
  }

  lemma OrderedIsDistinct(fs: seq<Field>)
    requires Ordered(fs)
    ensures DistinctKeys(fs)
  {
    forall i, j | 0 <= i < j < |fs| ensures fs[i].key != fs[j].key {
      KeyBeforeIsTotal(fs[i].key, fs[j].key);
    }
  }

  ghost predicate AllDefined(fs: seq<Field>) {
    forall i :: 0 <= i < |fs| ==> !fs[i].value.Undefined?
  }

  /** An object in enumeration order without undefined fields is known by its value at every key. */
  lemma {:induction false} LookupsDecide(a: seq<Field>, b: seq<Field>)
    requires Ordered(a) && Ordered(b) && AllDefined(a) && AllDefined(b)
    requires forall k :: Lookup(a, k) == Lookup(b, k)
    ensures a == b
  {
    if a == [] || b == [] {
      assert a != [] ==> Lookup(a, a[0].key) != Undefined;
      assert b != [] ==> Lookup(b, b[0].key) != Undefined;
    } else {
      FirstKeyIsFirst(a, b);
      FirstKeyIsFirst(b, a);
      KeyBeforeIsTotal(a[0].key, b[0].key);
      forall k ensures Lookup(a[1..], k) == Lookup(b[1..], k) {
        OrderedIsDistinct(a);
        OrderedIsDistinct(b);
        if k == a[0].key {
          LookupMisses(a[1..], k);
          LookupMisses(b[1..], k);
        } else {
          assert Lookup(a, k) == Lookup(b, k);
        }
      }
      LookupsDecide(a[1..], b[1..]);
      assert Lookup(a, a[0].key) == Lookup(b, a[0].key);
      assert a == [a[0]] + a[1..] && b == [b[0]] + b[1..];
    }
  }

  // No key of b comes before the first key of a, when a has every key that b has.
  lemma FirstKeyIsFirst(a: seq<Field>, b: seq<Field>)
    requires a != [] && b != [] && Ordered(a) && AllDefined(b)
    requires Lookup(a, b[0].key) == Lookup(b, b[0].key)
    ensures !KeyBefore(b[0].key, a[0].key)
  {
    if KeyBefore(b[0].key, a[0].key) {
      forall i | 0 <= i < |a| ensures a[i].key != b[0].key {
        KeyBeforeIsTotal(b[0].key, a[0].key);
        KeyBeforeIsTotal(a[0].key, a[i].key);
      }
      LookupMisses(a, b[0].key);
    }
  }

  // ---- normalisation ----

  function Defined(fs: seq<Field>): seq<Field> {
    if fs == [] then []
    else if fs[0].value.Undefined? then Defined(fs[1..])
    else [fs[0]] + Defined(fs[1..])
  }

  function Normalize(v: Json): Json {
    match v
    case Date(iso) => Str(iso)
    case ObjectId(hex) => Str(hex)
    case Arr(items) => Arr(seq(|items|, i requires 0 <= i < |items| => Normalize(items[i])))
    case Obj(fields) => Obj(Canonical(Defined(NormalizeFields(fields))))
    case _ => v
  }

  function NormalizeFields(fields: seq<Field>): seq<Field>
    ensures |NormalizeFields(fields)| == |fields|
  {
    seq(|fields|, i requires 0 <= i < |fields| => Field(fields[i].key, Normalize(fields[i].value)))
  }

  // A value as the language can hold it: no object has a key twice.
  ghost predicate Proper(v: Json) {
    match v
    case Arr(items) => forall i :: 0 <= i < |items| ==> Proper(items[i])
    case Obj(fields) => DistinctKeys(fields) && forall i :: 0 <= i < |fields| ==> Proper(fields[i].value)
    case _ => true
  }

  ghost predicate Normal(v: Json) {
    match v
    case Date(_) => false
    case ObjectId(_) => false
    case Arr(items) => forall i :: 0 <= i < |items| ==> Normal(items[i])
    case Obj(fields) =>
      Ordered(fields) && AllDefined(fields) && forall i :: 0 <= i < |fields| ==> Normal(fields[i].value)
    case _ => true
  }

  lemma {:induction false} DefinedIsSubset(fs: seq<Field>)
    ensures forall f :: f in Defined(fs) <==> f in fs && !f.value.Undefined?
    ensures DistinctKeys(fs) ==> DistinctKeys(Defined(fs))
  {
    if fs != [] {
      DefinedIsSubset(fs[1..]);
      assert fs == [fs[0]] + fs[1..];
      if DistinctKeys(fs) {
        var rest := Defined(fs[1..]);
        forall i | 0 <= i < |rest| ensures rest[i].key != fs[0].key {
          assert rest[i] in fs[1..];
        }
      }
    }
  }

  lemma {:induction false} DefinedKeepsLookups(fs: seq<Field>, k: string)
    requires DistinctKeys(fs)
    ensures Lookup(Defined(fs), k) == Lookup(fs, k)
  {
    if fs != [] {
      DefinedKeepsLookups(fs[1..], k);
      assert !fs[0].value.Undefined? ==> Defined(fs)[1..] == Defined(fs[1..]);
      if fs[0].key == k {
        LookupMisses(fs[1..], k);
      }
    }
  }

  lemma {:induction false} DefinedStays(fs: seq<Field>)
    requires AllDefined(fs)
    ensures Defined(fs) == fs
  {
    if fs != [] {
      DefinedStays(fs[1..]);
    }
  }

  // The fields of a normalised object, said by lookups.
  lemma NormalizedObject(fields: seq<Field>)
    requires DistinctKeys(fields)
    ensures var r := Normalize(Obj(fields)).fields;
            && Ordered(r) && AllDefined(r)
            && (forall f :: f in r <==> f in NormalizeFields(fields) && !f.value.Undefined?)
            && (forall k :: Lookup(r, k) == Lookup(NormalizeFields(fields), k))
  {
    var entries := NormalizeFields(fields);
    DefinedIsSubset(entries);
    CanonicalIsOrdered(Defined(entries));
    var r := Canonical(Defined(entries));
    forall f ensures f in r <==> f in entries && !f.value.Undefined? {
      SameMultisetSameMembers(r, Defined(entries), f);
    }
    forall i | 0 <= i < |r| ensures !r[i].value.Undefined? {
      assert r[i] in r;
    }
    forall k ensures Lookup(r, k) == Lookup(entries, k) {
      OrderedIsDistinct(r);
      LookupOfPermutation(r, Defined(entries), k);
      DefinedKeepsLookups(entries, k);
    }
  }

  lemma {:induction false} NormalizeIsNormal(v: Json)
    requires Proper(v)
    ensures Normal(Normalize(v))
  {
    match v
    case Arr(items) =>
      forall i | 0 <= i < |items| ensures Normal(Normalize(items[i])) { NormalizeIsNormal(items[i]); }
    case Obj(fields) =>
      NormalizedObject(fields);
      var r := Normalize(v).fields;
      forall i | 0 <= i < |r| ensures Normal(r[i].value) {
        assert r[i] in NormalizeFields(fields);
        ghost var j :| 0 <= j < |fields| && NormalizeFields(fields)[j] == r[i];
        NormalizeIsNormal(fields[j].value);
      }
    case _ =>
  }

  lemma {:induction false} NormalStays(v: Json)
    requires Normal(v)
    ensures Normalize(v) == v
  {
    match v
    case Arr(items) =>
      forall i | 0 <= i < |items| ensures Normalize(items[i]) == items[i] { NormalStays(items[i]); }
      assert Normalize(v).items == items;
    case Obj(fields) =>
      forall i | 0 <= i < |fields| ensures Normalize(fields[i].value) == fields[i].value {
        NormalStays(fields[i].value);
      }
      assert NormalizeFields(fields) == fields;
      OrderedIsDistinct(fields);
      NormalizedObject(fields);
      LookupsDecide(Normalize(v).fields, fields);
    case _ =>
  }

  /** Normalising again changes nothing. */
  lemma NormalizeIsIdempotent(v: Json)
    requires Proper(v)
    ensures Normalize(Normalize(v)) == Normalize(v)
  {
    NormalizeIsNormal(v);
    NormalStays(Normalize(v));
  }

  // ---- what the normal form identifies ----

  // A date or object id is its string.
  function Plain(v: Json): Json {
    match v case Date(iso) => Str(iso) case ObjectId(hex) => Str(hex) case _ => v
  }

  /**
   * Equal up to the order of keys, undefined fields and the text form of dates and ids: arrays
   * agree item by item, objects have the same value at every key.
   */
  ghost predicate Same(v: Json, w: Json)
    decreases v
  {
    match v
    case Arr(a) => w.Arr? && |a| == |w.items| && forall i :: 0 <= i < |a| ==> Same(a[i], w.items[i])
    case Obj(a) =>
      && w.Obj?
      && (forall i :: 0 <= i < |a| ==> Same(a[i].value, Lookup(w.fields, a[i].key)))
      && (forall j :: 0 <= j < |w.fields| ==>
            (exists i :: 0 <= i < |a| && a[i].key == w.fields[j].key) || w.fields[j].value.Undefined?)
    case _ => !w.Arr? && !w.Obj? && Plain(v) == Plain(w)
  }

  lemma {:induction false} LookupNormalized(fields: seq<Field>, k: string)
    ensures Lookup(NormalizeFields(fields), k) == Normalize(Lookup(fields, k))
  {
    if fields != [] {
      LookupNormalized(fields[1..], k);
      assert NormalizeFields(fields)[1..] == NormalizeFields(fields[1..]);
    }
  }

  lemma {:induction false} LookupIsProper(fields: seq<Field>, k: string)
    requires forall i :: 0 <= i < |fields| ==> Proper(fields[i].value)
    ensures Proper(Lookup(fields, k))
  {
    if fields != [] {
      LookupIsProper(fields[1..], k);
    }
  }

  /** Two values have the same normal form exactly when they are the same in the sense above. */
  lemma {:induction false} NormalFormDecides(v: Json, w: Json)
    requires Proper(v) && Proper(w)
    ensures Normalize(v) == Normalize(w) <==> Same(v, w)
    decreases v
  {
    match v
    case Arr(a) =>
      if w.Arr? && |a| == |w.items| {
        forall i | 0 <= i < |a| ensures Normalize(a[i]) == Normalize(w.items[i]) <==> Same(a[i], w.items[i]) {
          NormalFormDecides(a[i], w.items[i]);
        }
      }
      if w.Arr? {
        ArraysDecide(a, w.items);
      }
    case Obj(a) =>
      if w.Obj? {
        forall i | 0 <= i < |a|
          ensures Normalize(a[i].value) == Normalize(Lookup(w.fields, a[i].key)) <==>
                  Same(a[i].value, Lookup(w.fields, a[i].key))
        {
          LookupIsProper(w.fields, a[i].key);
          NormalFormDecides(a[i].value, Lookup(w.fields, a[i].key));
        }
        if Same(v, w) {
          SameObjectsAgree(a, w.fields);
        }
        if Normalize(v) == Normalize(w) {
          AgreeingObjectsAreSame(a, w.fields);
        }
      }
    case _ =>
  }

  // The step for arrays, once it is known for the items.
  lemma ArraysDecide(a: seq<Json>, b: seq<Json>)
    requires |a| == |b| ==> forall i :: 0 <= i < |a| ==> (Normalize(a[i]) == Normalize(b[i]) <==> Same(a[i], b[i]))
    ensures Normalize(Arr(a)) == Normalize(Arr(b)) <==> Same(Arr(a), Arr(b))
  {
    var r, q := Normalize(Arr(a)).items, Normalize(Arr(b)).items;
    assert |r| == |a| && |q| == |b|;
    assert forall i :: 0 <= i < |a| ==> r[i] == Normalize(a[i]);
    assert forall i :: 0 <= i < |b| ==> q[i] == Normalize(b[i]);
    assert Same(Arr(a), Arr(b)) ==> r == q;
  }

  // The step for objects, once it is known for the values of the first one: from same to equal.
  lemma SameObjectsAgree(a: seq<Field>, b: seq<Field>)
    requires DistinctKeys(a) && DistinctKeys(b) && Same(Obj(a), Obj(b))
    requires forall i :: 0 <= i < |a| ==> Normalize(a[i].value) == Normalize(Lookup(b, a[i].key))
    ensures Normalize(Obj(a)) == Normalize(Obj(b))
  {
    NormalizedObject(a);
    NormalizedObject(b);
    forall k ensures Lookup(Normalize(Obj(a)).fields, k) == Lookup(Normalize(Obj(b)).fields, k) {
      LookupNormalized(a, k);
      LookupNormalized(b, k);
      SameAtKey(a, b, k);
    }
    LookupsDecide(Normalize(Obj(a)).fields, Normalize(Obj(b)).fields);
  }

  // And back: equal normal forms agree at every key.
  lemma AgreeingObjectsMatch(a: seq<Field>, b: seq<Field>, k: string)
    requires DistinctKeys(a) && DistinctKeys(b) && Normalize(Obj(a)) == Normalize(Obj(b))
    ensures Normalize(Lookup(a, k)) == Normalize(Lookup(b, k))
  {
    NormalizedObject(a);
    NormalizedObject(b);
    LookupNormalized(a, k);
    LookupNormalized(b, k);
  }

  lemma AgreeingObjectsAreSame(a: seq<Field>, b: seq<Field>)
    requires DistinctKeys(a) && DistinctKeys(b) && Normalize(Obj(a)) == Normalize(Obj(b))
    requires forall i :: 0 <= i < |a| ==>
               (Normalize(a[i].value) == Normalize(Lookup(b, a[i].key)) ==> Same(a[i].value, Lookup(b, a[i].key)))
    ensures Same(Obj(a), Obj(b))
  {
    hide Lookup;
    forall i | 0 <= i < |a| ensures Same(a[i].value, Lookup(b, a[i].key)) {
      AgreeingObjectsMatch(a, b, a[i].key);
      LookupFinds(a, i);
    }
    forall j | 0 <= j < |b|
      ensures (exists i :: 0 <= i < |a| && a[i].key == b[j].key) || b[j].value.Undefined?
    {
      AgreeingObjectsMatch(a, b, b[j].key);
      LookupFinds(b, j);
      if forall i :: 0 <= i < |a| ==> a[i].key != b[j].key {
        LookupMisses(a, b[j].key);
      }
    }
  }

  lemma SameAtKey(a: seq<Field>, b: seq<Field>, k: string)
    requires DistinctKeys(a) && DistinctKeys(b) && Same(Obj(a), Obj(b))
    requires forall i :: 0 <= i < |a| ==> Normalize(a[i].value) == Normalize(Lookup(b, a[i].key))
    ensures Normalize(Lookup(a, k)) == Normalize(Lookup(b, k))
  {
    if i :| 0 <= i < |a| && a[i].key == k {
      LookupFinds(a, i);
    } else {
      LookupMisses(a, k);
      if j :| 0 <= j < |b| && b[j].key == k {
        LookupFinds(b, j);
      } else {
        LookupMisses(b, k);
      }
    }
  }

  /** The normal form does not see the order of keys, nor fields that are undefined. */
  lemma BlindToOrderAndUndefined(a: seq<Field>, b: seq<Field>)
    requires DistinctKeys(a) && DistinctKeys(b) && multiset(Defined(a)) == multiset(Defined(b))
    ensures Normalize(Obj(a)) == Normalize(Obj(b))
  {
    NormalizedObject(a);
    NormalizedObject(b);
    forall k ensures Lookup(Normalize(Obj(a)).fields, k) == Lookup(Normalize(Obj(b)).fields, k) {
      DefinedIsSubset(a);
      LookupOfPermutation(Defined(a), Defined(b), k);
      DefinedKeepsLookups(a, k);
      DefinedKeepsLookups(b, k);
      LookupNormalized(a, k);
      LookupNormalized(b, k);
    }
    LookupsDecide(Normalize(Obj(a)).fields, Normalize(Obj(b)).fields);
  }
}
