/**
 * JSON text as in sections 4 to 7 of RFC 8259, printed without white space, and its parser. The
 * stable text of a value is the text of its normal form; reading it back loses nothing.
 */
module JsonText {
  import opened Prelude
  import opened CanonicalJson

  // ---- printing ----

  function HexDigit(n: nat): char requires n < 16 { "0123456789abcdef"[n] }

  function Escape(c: char): string {
    if c == '"' then "\\\""
    else if c == '\\' then "\\\\"
    else if c == '\U{8}' then "\\b"
    else if c == '\U{C}' then "\\f"
    else if c == '\n' then "\\n"
    else if c == '\r' then "\\r"
    else if c == '\t' then "\\t"
    else if c < ' ' then "\\u00" + [HexDigit(c as int / 16), HexDigit(c as int % 16)]
    else [c]
  }

  function Body(s: string): string {
    if s == "" then "" else Escape(s[0]) + Body(s[1..])
  }

  function Quote(s: string): string { "\"" + Body(s) + "\"" }

  function Join(parts: seq<string>): string {
    if parts == [] then "" else if |parts| == 1 then parts[0] else parts[0] + "," + Join(parts[1..])
  }

  // Printing a value. One with no text of its own is null as an item and left out as a field.
  function Print(v: Json): string {
    match v
    case Bool(b) => if b then "true" else "false"
    case Number(t) => t
    case Str(s) => Quote(s)
    case Date(iso) => Quote(iso)
    case ObjectId(hex) => Quote(hex)
    case Arr(items) => "[" + Join(PrintItems(items)) + "]"
    case Obj(fields) => "{" + Join(Present(PrintFields(fields))) + "}"
    case _ => "null"
  }

  function PrintItems(items: seq<Json>): (parts: seq<string>)
    ensures |parts| == |items|
  {
    seq(|items|, i requires 0 <= i < |items| => Print(items[i]))
  }

  function PrintFields(fields: seq<Field>): (parts: seq<string>)
    ensures |parts| == |fields|
  {
    seq(|fields|, i requires 0 <= i < |fields| =>
      if fields[i].value.Undefined? then "" else Quote(fields[i].key) + ":" + Print(fields[i].value))
  }

  // The fields that have a text.
  function Present(parts: seq<string>): seq<string> {
    if parts == [] then [] else (if parts[0] == "" then [] else [parts[0]]) + Present(parts[1..])
  }

  lemma {:induction false} AllPresent(parts: seq<string>)
    requires forall i :: 0 <= i < |parts| ==> parts[i] != ""
    ensures Present(parts) == parts
  {
    if parts != [] {
      AllPresent(parts[1..]);
    }
  }

  // ---- reading ----

  type Read<T> = Option<(T, string)>

  function HexValue(c: char): (r: Option<nat>)
    ensures r.Some? ==> r.value < 16
  {
    if '0' <= c <= '9' then Some(c as int - '0' as int)
    else if 'a' <= c <= 'f' then Some(c as int - 'a' as int + 10)
    else if 'A' <= c <= 'F' then Some(c as int - 'A' as int + 10)
    else None
  }

  function HexPair(c: char, d: char): (r: Option<nat>)
    ensures r.Some? ==> r.value < 256
  {
    if HexValue(c).None? || HexValue(d).None? then None else Some(HexValue(c).value * 16 + HexValue(d).value)
  }

  // The four digits of a \u escape. Surrogates are not characters here.
  function ReadHex(s: string): (r: Read<char>)
    ensures r.Some? ==> |r.value.1| < |s|
  {
    if |s| < 4 || HexPair(s[0], s[1]).None? || HexPair(s[2], s[3]).None? then None
    else
      var n := HexPair(s[0], s[1]).value * 256 + HexPair(s[2], s[3]).value;
      if 0xD800 <= n < 0xE000 then None else Some((n as char, s[4..]))
  }

  function ReadEscape(s: string): (r: Read<char>)
    ensures r.Some? ==> |r.value.1| < |s|
  {
    if s == "" then None
    else if s[0] in "\"\\/" then Some((s[0], s[1..]))
    else if s[0] == 'b' then Some(('\U{8}', s[1..]))
    else if s[0] == 'f' then Some(('\U{C}', s[1..]))
    else if s[0] == 'n' then Some(('\n', s[1..]))
    else if s[0] == 'r' then Some(('\r', s[1..]))
    else if s[0] == 't' then Some(('\t', s[1..]))
    else if s[0] == 'u' then ReadHex(s[1..])
    else None
  }

  function ReadChar(s: string): (r: Read<char>)
    ensures r.Some? ==> |r.value.1| < |s|
  {
    if s == "" || s[0] < ' ' || s[0] == '"' then None
    else if s[0] == '\\' then ReadEscape(s[1..])
    else Some((s[0], s[1..]))
  }

  // What follows an opening quote, up to the closing one.
  function ReadBody(s: string): (r: Read<string>)
    ensures r.Some? ==> |r.value.1| < |s|
  {
    if s != "" && s[0] == '"' then Some(("", s[1..]))
    else
      match ReadChar(s)
      case None => None
      case Some((c, rest)) =>
        match ReadBody(rest)
        case None => None
        case Some((t, after)) => Some(([c] + t, after))
  }

  // The number characters a text starts with.
  function NumberRun(s: string): (n: nat)
    ensures n <= |s| && forall i :: 0 <= i < n ==> NumberChar(s[i])
  {
    if s == "" || !NumberChar(s[0]) then 0 else 1 + NumberRun(s[1..])
  }

  function ReadWord(s: string, word: string, v: Json): (r: Read<Json>)
    requires word != ""
    ensures r.Some? ==> |r.value.1| < |s|
  {
    if word <= s then Some((v, s[|word|..])) else None
  }

  function ReadValue(s: string): (r: Read<Json>)
    ensures r.Some? ==> |r.value.1| < |s|
    decreases |s|, 0
  {
    if s == "" then None
    else if s[0] == '"' then
      match ReadBody(s[1..]) { case None => None case Some((t, rest)) => Some((Str(t), rest)) }
    else if s[0] == '[' then
      if |s| > 1 && s[1] == ']' then Some((Arr([]), s[2..])) else ReadItems(s[1..], [])
    else if s[0] == '{' then
      if |s| > 1 && s[1] == '}' then Some((Obj([]), s[2..])) else ReadFields(s[1..], [])
    else if s[0] == 't' then ReadWord(s, "true", Bool(true))
    else if s[0] == 'f' then ReadWord(s, "false", Bool(false))
    else if s[0] == 'n' then ReadWord(s, "null", Null)
    else
      var n := NumberRun(s);
      if IsNumber(s[..n]) then Some((Number(s[..n]), s[n..])) else None
  }

  function ReadItems(s: string, done: seq<Json>): (r: Read<Json>)
    ensures r.Some? ==> |r.value.1| < |s|
    decreases |s|, 1
  {
    match ReadValue(s)
    case None => None
    case Some((v, rest)) =>
      if rest == "" then None
      else if rest[0] == ',' then ReadItems(rest[1..], done + [v])
      else if rest[0] == ']' then Some((Arr(done + [v]), rest[1..]))
      else None
  }

  // Fields are assigned one by one, so a repeated key keeps its last value.
  function ReadFields(s: string, done: seq<Field>): (r: Read<Json>)
    ensures r.Some? ==> |r.value.1| < |s|
    decreases |s|, 1
  {
    match ReadField(s)
    case None => None
    case Some((f, rest)) =>
      if rest == "" then None
      else if rest[0] == ',' then ReadFields(rest[1..], Put(done, f))
      else if rest[0] == '}' then Some((Obj(Put(done, f)), rest[1..]))
      else None
  }

  function ReadField(s: string): (r: Read<Field>)
    ensures r.Some? ==> |r.value.1| < |s|
    decreases |s|, 0
  {
    if s == "" || s[0] != '"' then None
    else
      match ReadBody(s[1..])
      case None => None
      case Some((key, rest)) =>
        if rest == "" || rest[0] != ':' then None
        else
          match ReadValue(rest[1..])
          case None => None
          case Some((v, after)) => Some((Field(key, v), after))
  }

  // A whole text: one value, then perhaps line feeds.
  function Parse(s: string): Option<Json> {
    match ReadValue(s)
    case None => None
    case Some((v, rest)) => if forall i :: 0 <= i < |rest| ==> rest[i] == '\n' then Some(v) else None
  }

  // ---- reading what was printed ----

  // What a text keeps of a normal form: a value that has no text is read back as null.
  function Scrub(v: Json): Json {
    match v
    case Undefined => Null
    case NotFinite => Null
    case Arr(items) => Arr(ScrubItems(items))
    case Obj(fields) => Obj(ScrubFields(fields))
    case _ => v
  }

  function ScrubItems(items: seq<Json>): (r: seq<Json>)
    ensures |r| == |items|
  {
    seq(|items|, i requires 0 <= i < |items| => Scrub(items[i]))
  }

  function ScrubFields(fields: seq<Field>): (r: seq<Field>)
    ensures |r| == |fields|
  {
    seq(|fields|, i requires 0 <= i < |fields| => Field(fields[i].key, Scrub(fields[i].value)))
  }

  // After a number, the text must not go on like one.
  predicate Ends(rest: string) { rest == "" || !NumberChar(rest[0]) }

  predicate Plainly(c: char) { c >= ' ' || c in "\U{8}\U{C}\n\r\t" }

  lemma ControlReads(c: char, rest: string)
    requires !Plainly(c)
    ensures ReadHex("00" + [HexDigit(c as int / 16), HexDigit(c as int % 16)] + rest) == Some((c, rest))
  {
    var n := c as int;
    var s := "00" + [HexDigit(n / 16), HexDigit(n % 16)] + rest;
    HexReads(n / 16);
    HexReads(n % 16);
    assert s[4..] == rest;
  }

  // Behind a backslash.
  lemma ShortReads(c: char, rest: string)
    requires |Escape(c)| == 2
    ensures ReadEscape([Escape(c)[1]] + rest) == Some((c, rest))
  {
    assert ([Escape(c)[1]] + rest)[1..] == rest;
  }

  lemma LongReads(c: char, rest: string)
    requires !Plainly(c)
    ensures ReadEscape(Escape(c)[1..] + rest) == Some((c, rest))
  {
    var n := c as int;
    ControlReads(c, rest);
    assert (Escape(c)[1..] + rest)[1..] == "00" + [HexDigit(n / 16), HexDigit(n % 16)] + rest;
  }

  lemma EscapeReads(c: char, rest: string)
    ensures ReadChar(Escape(c) + rest) == Some((c, rest))
    ensures Escape(c) != "" && Escape(c)[0] != '"'
  {
    var s := Escape(c) + rest;
    if !Plainly(c) {
      LongReads(c, rest);
      assert s[1..] == Escape(c)[1..] + rest;
    } else if |Escape(c)| == 2 {
      ShortReads(c, rest);
      assert s[1..] == [Escape(c)[1]] + rest;
    } else {
      assert s[1..] == rest;
    }
  }

  lemma HexReads(n: nat)
    requires n < 16
    ensures HexValue(HexDigit(n)) == Some(n)
  {
  }

  // One character of a string, and the rest.
  lemma BodyStep(s: string, c: char, after: string, t: string, rest: string)
    requires s != "" && s[0] != '"' && ReadChar(s) == Some((c, after)) && ReadBody(after) == Some((t, rest))
    ensures ReadBody(s) == Some(([c] + t, rest))
  {
  }

  lemma {:induction false} BodyReads(t: string, rest: string)
    ensures ReadBody(Body(t) + "\"" + rest) == Some((t, rest))
  {
    var s := Body(t) + "\"" + rest;
    if t == "" {
      assert s == "\"" + rest;
    } else {
      var after := Body(t[1..]) + "\"" + rest;
      Regroup(Escape(t[0]), Body(t[1..]), "\"", rest);
      assert s == Escape(t[0]) + after;
      EscapeReads(t[0], after);
      BodyReads(t[1..], rest);
      BodyStep(s, t[0], after, t[1..], rest);
      assert t == [t[0]] + t[1..];
    }
  }

  lemma {:induction false} RunIsMaximal(t: string, rest: string)
    requires OnlyNumberChars(t) && Ends(rest)
    ensures NumberRun(t + rest) == |t|
  {
    if t == "" {
      assert t + rest == rest;
    } else {
      assert (t + rest)[1..] == t[1..] + rest;
      RunIsMaximal(t[1..], rest);
    }
  }

  lemma NumberOpens(s: string, t: NumberText, rest: string)
    requires s != "" && (Digit(s[0]) || s[0] == '-')
    requires NumberRun(s) == |t| && s[..|t|] == t && s[|t|..] == rest
    ensures ReadValue(s) == Some((Number(t), rest))
  {
  }

  lemma NumberReads(t: NumberText, rest: string)
    requires Ends(rest)
    ensures ReadValue(t + rest) == Some((Number(t), rest))
  {
    RunIsMaximal(t, rest);
    NumberOpens(t + rest, t, rest);
  }

  lemma StringReads(t: string, rest: string)
    ensures ReadValue(Quote(t) + rest) == Some((Str(t), rest))
  {
    assert (Quote(t) + rest)[1..] == Body(t) + "\"" + rest;
    BodyReads(t, rest);
  }

  lemma WordReads(word: string, rest: string, v: Json)
    requires word in ["true", "false", "null"]
    requires v == if word == "true" then Bool(true) else if word == "false" then Bool(false) else Null
    ensures ReadValue(word + rest) == Some((v, rest))
  {
    assert word <= word + rest && (word + rest)[|word|..] == rest;
  }

  // The first character of a printed value, which a reader of a list looks at.
  lemma PrintStarts(v: Json)
    requires Normal(v)
    ensures Print(v) != "" && Print(v)[0] != ']' && Print(v)[0] != '}'
  {
  }

  // The text is that of the value wherever it stands.
  ghost predicate ReadsBack(text: string, v: Json) {
    forall rest :: Ends(rest) ==> ReadValue(text + rest) == Some((v, rest))
  }

  ghost predicate FieldReadsBack(text: string, f: Field) {
    forall rest :: Ends(rest) ==> ReadField(text + rest) == Some((f, rest))
  }

  lemma ItemReads(text: string, v: Json, c: char, after: string, done: seq<Json>)
    requires ReadsBack(text, v)
    ensures c == ']' ==> ReadItems(text + [c] + after, done) == Some((Arr(done + [v]), after))
    ensures c == ',' ==> ReadItems(text + [c] + after, done) == ReadItems(after, done + [v])
  {
    if c in "],"  {
      assert text + [c] + after == text + ([c] + after);
      assert Ends([c] + after) && ([c] + after)[1..] == after;
    }
  }

  // A list of texts, closed and followed by others, from its first element on.
  lemma JoinedText(parts: seq<string>, close: string, rest: string)
    requires parts != []
    ensures |parts| == 1 ==> Join(parts) + close + rest == parts[0] + close + rest
    ensures |parts| > 1 ==> Join(parts) + close + rest == parts[0] + "," + (Join(parts[1..]) + close + rest)
  {
    if |parts| > 1 {
      Regroup(parts[0] + ",", Join(parts[1..]), close, rest);
    }
  }

  lemma Regroup(a: string, b: string, c: string, d: string)
    ensures a + b + c + d == a + (b + c + d)
  {
  }

  lemma HeadAndTail(done: seq<Json>, vs: seq<Json>)
    requires vs != []
    ensures done + [vs[0]] + vs[1..] == done + vs
  {
  }

  lemma {:induction false} ItemsRead(parts: seq<string>, vs: seq<Json>, done: seq<Json>, rest: string)
    requires parts != [] && |parts| == |vs| && forall i :: 0 <= i < |parts| ==> ReadsBack(parts[i], vs[i])
    ensures ReadItems(Join(parts) + "]" + rest, done) == Some((Arr(done + vs), rest))
    decreases |parts|
  {
    JoinedText(parts, "]", rest);
    if |parts| == 1 {
      ItemReads(parts[0], vs[0], ']', rest, done);
      assert vs == [vs[0]];
    } else {
      ItemsRead(parts[1..], vs[1..], done + [vs[0]], rest);
      ItemReads(parts[0], vs[0], ',', Join(parts[1..]) + "]" + rest, done);
      HeadAndTail(done, vs);
    }
  }

  // A list of texts between brackets.
  lemma Bracketed(open: string, parts: seq<string>, close: string, rest: string)
    requires |open| == |close| == 1
    ensures var s := open + Join(parts) + close + rest;
            && s[0] == open[0] && s[1..] == Join(parts) + close + rest
            && (parts == [] ==> s[1] == close[0] && s[2..] == rest)
            && (parts != [] && parts[0] != "" ==> s[1] == parts[0][0])
  {
    var s := open + Join(parts) + close + rest;
    if parts == [] {
      assert s == open + close + rest;
    } else if parts[0] != "" {
      assert Join(parts)[0] == parts[0][0];
    }
  }

  lemma ArrayOpens(s: string, inner: string)
    requires |s| > 1 && s[0] == '[' && s[1..] == inner
    ensures s[1] != ']' ==> ReadValue(s) == ReadItems(inner, [])
    ensures s[1] == ']' ==> ReadValue(s) == Some((Arr([]), s[2..]))
  {
  }

  lemma ObjectOpens(s: string, inner: string)
    requires |s| > 1 && s[0] == '{' && s[1..] == inner
    ensures s[1] != '}' ==> ReadValue(s) == ReadFields(inner, [])
    ensures s[1] == '}' ==> ReadValue(s) == Some((Obj([]), s[2..]))
  {
  }

  lemma ArrayReads(parts: seq<string>, vs: seq<Json>)
    requires |parts| == |vs| && forall i :: 0 <= i < |parts| ==> ReadsBack(parts[i], vs[i])
    requires parts != [] ==> parts[0] != "" && parts[0][0] != ']'
    ensures ReadsBack("[" + Join(parts) + "]", Arr(vs))
  {
    forall rest ensures ReadValue("[" + Join(parts) + "]" + rest) == Some((Arr(vs), rest)) {
      Bracketed("[", parts, "]", rest);
      ArrayOpens("[" + Join(parts) + "]" + rest, Join(parts) + "]" + rest);
      if parts != [] {
        ItemsRead(parts, vs, [], rest);
        assert [] + vs == vs;
      }
    }
  }

  lemma FieldOpens(s: string, key: string, next: string, v: Json, rest: string)
    requires s != "" && s[0] == '"' && ReadBody(s[1..]) == Some((key, ":" + next)) && ReadValue(next) == Some((v, rest))
    ensures ReadField(s) == Some((Field(key, v), rest))
  {
    assert (":" + next)[1..] == next;
  }

  lemma FieldText(body: string, text: string, rest: string)
    ensures var s := "\"" + body + "\"" + ":" + text + rest;
            s[0] == '"' && s[1..] == body + "\"" + (":" + (text + rest))
  {
  }

  lemma FieldReads(key: string, text: string, v: Json)
    requires ReadsBack(text, v)
    ensures FieldReadsBack(Quote(key) + ":" + text, Field(key, v))
  {
    forall rest | Ends(rest) ensures ReadField(Quote(key) + ":" + text + rest) == Some((Field(key, v), rest)) {
      var s := Quote(key) + ":" + text + rest;
      FieldText(Body(key), text, rest);
      BodyReads(key, ":" + (text + rest));
      FieldOpens(s, key, text + rest, v, rest);
    }
  }

  lemma NextFieldReads(text: string, f: Field, c: char, after: string, done: seq<Field>)
    requires FieldReadsBack(text, f)
    ensures c == '}' ==> ReadFields(text + [c] + after, done) == Some((Obj(Put(done, f)), after))
    ensures c == ',' ==> ReadFields(text + [c] + after, done) == ReadFields(after, Put(done, f))
  {
    if c in "},"  {
      assert text + [c] + after == text + ([c] + after);
      assert Ends([c] + after) && ([c] + after)[1..] == after;
    }
  }

  // Every field is assigned after the ones before it, so assignment appends it.
  lemma PutNext(done: seq<Field>, fs: seq<Field>)
    requires fs != [] && Ordered(done + fs)
    ensures Put(done, fs[0]) == done + [fs[0]] && done + [fs[0]] + fs[1..] == done + fs
  {
    assert forall i :: 0 <= i < |done| ==> done[i] == (done + fs)[i];
    assert fs[0] == (done + fs)[|done|];
    PutAtEnd(done, fs[0]);
  }

  lemma {:induction false} FieldsRead(parts: seq<string>, fs: seq<Field>, done: seq<Field>, rest: string)
    requires parts != [] && |parts| == |fs| && forall i :: 0 <= i < |parts| ==> FieldReadsBack(parts[i], fs[i])
    requires Ordered(done + fs)
    ensures ReadFields(Join(parts) + "}" + rest, done) == Some((Obj(done + fs), rest))
    decreases |parts|
  {
    JoinedText(parts, "}", rest);
    PutNext(done, fs);
    if |parts| == 1 {
      NextFieldReads(parts[0], fs[0], '}', rest, done);
      assert fs == [fs[0]];
    } else {
      FieldsRead(parts[1..], fs[1..], done + [fs[0]], rest);
      NextFieldReads(parts[0], fs[0], ',', Join(parts[1..]) + "}" + rest, done);
    }
  }

  lemma ObjectReads(parts: seq<string>, fs: seq<Field>)
    requires |parts| == |fs| && (forall i :: 0 <= i < |parts| ==> FieldReadsBack(parts[i], fs[i])) && Ordered(fs)
    requires parts != [] ==> parts[0] != "" && parts[0][0] != '}'
    ensures ReadsBack("{" + Join(parts) + "}", Obj(fs))
  {
    forall rest ensures ReadValue("{" + Join(parts) + "}" + rest) == Some((Obj(fs), rest)) {
      Bracketed("{", parts, "}", rest);
      ObjectOpens("{" + Join(parts) + "}" + rest, Join(parts) + "}" + rest);
      if parts != [] {
        assert [] + fs == fs;
        FieldsRead(parts, fs, [], rest);
      }
    }
  }

  // The texts without parts of their own.
  lemma LeafReads(v: Json)
    requires Normal(v) && !v.Arr? && !v.Obj?
    ensures ReadsBack(Print(v), Scrub(v))
  {
    forall rest | Ends(rest) ensures ReadValue(Print(v) + rest) == Some((Scrub(v), rest)) {
      match v
      case Bool(b) => WordReads(Print(v), rest, v);
      case Number(t) => NumberReads(t, rest);
      case Str(t) => StringReads(t, rest);
      case _ => WordReads("null", rest, Null);
    }
  }

  /** Reading what was printed gives the value back, whatever text follows it. */
  lemma {:induction false} PrintReads(v: Json)
    requires Normal(v)
    ensures ReadsBack(Print(v), Scrub(v))
  {
    match v
    case Arr(items) =>
      forall i | 0 <= i < |items| ensures ReadsBack(PrintItems(items)[i], ScrubItems(items)[i]) {
        PrintReads(items[i]);
      }
      if items != [] {
        PrintStarts(items[0]);
      }
      ArrayReads(PrintItems(items), ScrubItems(items));
    case Obj(fields) =>
      forall i | 0 <= i < |fields| ensures FieldReadsBack(PrintFields(fields)[i], ScrubFields(fields)[i]) {
        PrintReads(fields[i].value);
        FieldReads(fields[i].key, Print(fields[i].value), Scrub(fields[i].value));
      }
      assert Ordered(ScrubFields(fields));
      AllPresent(PrintFields(fields));
      ObjectReads(PrintFields(fields), ScrubFields(fields));
    case _ => LeafReads(v);
  }

  // ---- the stable text ----

  // undefined alone has no text; every caller passes an array or an object.
  function StableStringify(v: Json): string
    requires !v.Undefined?
  {
    Print(Normalize(v))
  }

  // What the stable text says.
  function Content(v: Json): (r: Json)
    ensures (r.Obj? <==> v.Obj?) && (r.Arr? <==> v.Arr?)
  {
    Scrub(Normalize(v))
  }

  /** The stable text reads back as the content, also with the line feed an archive adds. */
  lemma StableTextReads(v: Json)
    requires Proper(v) && !v.Undefined?
    ensures Parse(StableStringify(v)) == Some(Content(v))
    ensures Parse(StableStringify(v) + "\n") == Some(Content(v))
  {
    NormalizeIsNormal(v);
    PrintReads(Normalize(v));
    assert StableStringify(v) + "" == StableStringify(v);
    assert Ends("") && Ends("\n");
  }

  ghost predicate SameText(v: Json, w: Json) {
    Normal(w) && Print(w) == Print(v) && !w.Undefined?
  }

  lemma {:induction false} ScrubKeepsText(v: Json)
    requires Normal(v)
    ensures SameText(v, Scrub(v))
  {
    match v
    case Arr(items) =>
      var r := ScrubItems(items);
      forall i | 0 <= i < |items| ensures SameText(items[i], r[i]) { ScrubKeepsText(items[i]); }
      assert PrintItems(r) == PrintItems(items);
    case Obj(fields) =>
      var r := ScrubFields(fields);
      forall i | 0 <= i < |fields| ensures r[i].key == fields[i].key && SameText(fields[i].value, r[i].value) {
        ScrubKeepsText(fields[i].value);
      }
      assert PrintFields(r) == PrintFields(fields);
    case _ =>
  }

  lemma {:induction false} NormalIsProper(v: Json)
    requires Normal(v)
    ensures Proper(v)
  {
    match v
    case Arr(items) => forall i | 0 <= i < |items| ensures Proper(items[i]) { NormalIsProper(items[i]); }
    case Obj(fields) =>
      OrderedIsDistinct(fields);
      forall i | 0 <= i < |fields| ensures Proper(fields[i].value) { NormalIsProper(fields[i].value); }
    case _ =>
  }

  // The content of a value is a normal form, and its own content.
  lemma ContentIsSettled(v: Json)
    requires Proper(v)
    ensures Normal(Content(v)) && Proper(Content(v)) && !Content(v).Undefined?
    ensures Normalize(Content(v)) == Content(v)
  {
    NormalizeIsNormal(v);
    ScrubKeepsText(Normalize(v));
    NormalIsProper(Content(v));
    NormalStays(Content(v));
  }

  /** A print-then-parse round trip does not change the stable text. */
  lemma RoundTripKeepsText(v: Json)
    requires Proper(v) && !v.Undefined?
    ensures var back := Parse(StableStringify(v));
            back.Some? && Proper(back.value) && !back.value.Undefined?
            && StableStringify(back.value) == StableStringify(v)
  {
    StableTextReads(v);
    ContentIsSettled(v);
    NormalizeIsNormal(v);
    ScrubKeepsText(Normalize(v));
  }

  /** Two values have the same stable text exactly when they have the same content. */
  lemma TextDecidesContent(v: Json, w: Json)
    requires Proper(v) && !v.Undefined? && Proper(w) && !w.Undefined?
    ensures StableStringify(v) == StableStringify(w) <==> Content(v) == Content(w)
  {
    StableTextReads(v);
    StableTextReads(w);
    NormalizeIsNormal(v);
    NormalizeIsNormal(w);
    ScrubKeepsText(Normalize(v));
    ScrubKeepsText(Normalize(w));
  }
}
