/**
 * What printed JSON looks like, over its characters, and what the stable text of a value keeps of
 * its dates, object ids and fields.
 */
module JsonForm {
  import opened CanonicalJson
  import opened JsonText

  // ---- strings ----

  predicate Printable(c: char) { c >= ' ' && c != '"' && c != '\\' }

  predicate Ordinary(s: string) { forall i :: 0 <= i < |s| ==> Printable(s[i]) }

  lemma PlainText(c: char)
    requires Printable(c)
    ensures Escape(c) == [c]
  {
  }

  /** An ordinary string is printed as it is, between quotes. */
  lemma {:induction false} OrdinaryText(s: string)
    requires Ordinary(s)
    ensures Body(s) == s && Print(Str(s)) == "\"" + s + "\""
  {
    hide Printable, Escape;
    if s != "" {
      OrdinaryText(s[1..]);
      PlainText(s[0]);
    }
  }

  lemma {:induction false} BodyOfSum(s: string, t: string)
    ensures Body(s + t) == Body(s) + Body(t)
  {
    if s == "" {
      assert s + t == t;
    } else {
      assert (s + t)[1..] == s[1..] + t;
      BodyOfSum(s[1..], t);
    }
  }

  // The escape of a character that may not stand in a string.
  predicate EscapedAs(c: char, text: string) {
    match c
    case '"' => text == "\\\""
    case '\\' => text == "\\\\"
    case '\U{8}' => text == "\\b"
    case '\t' => text == "\\t"
    case '\n' => text == "\\n"
    case '\U{C}' => text == "\\f"
    case '\r' => text == "\\r"
    case _ =>
      var low := "0123456789abcdef"[c as int % 16];
      c < ' ' && text == "\\u00" + [if c as int >= 16 then '1' else '0', low]
  }

  lemma ControlText(c: char)
    requires !Printable(c)
    ensures EscapedAs(c, Escape(c))
  {
  }

  lemma BodyOfOne(c: char)
    ensures Body([c]) == Escape(c)
  {
    hide Escape;
    assert [c][1..] == "" && [c][0] == c;
  }

  /** Any other character is escaped where it stands. */
  lemma SpecialText(s: string, c: char, t: string)
    requires !Printable(c)
    ensures exists text :: EscapedAs(c, text) && Body(s + [c] + t) == Body(s) + text + Body(t)
  {
    hide Body, Escape, EscapedAs, Printable;
    BodyOfSum(s + [c], t);
    BodyOfSum(s, [c]);
    BodyOfOne(c);
    ControlText(c);
  }

  lemma StringText(s: string)
    ensures Print(Str(s)) == "\"" + Body(s) + "\""
  {
  }

  // ---- values ----

  /** Leaves are printed as these words, their digits, or a string. */
  lemma LeafText(v: Json)
    ensures match v
            case Bool(b) => Print(v) == if b then "true" else "false"
            case Number(digits) => Print(v) == digits
            case Date(iso) => Print(v) == Print(Str(iso))
            case ObjectId(hex) => Print(v) == Print(Str(hex))
            case Arr(_) => true
            case Obj(_) => true
            case Str(_) => true
            case _ => Print(v) == "null"
  {
  }

  lemma {:induction false} JoinPush(parts: seq<string>, part: string)
    ensures Join(parts + [part]) == if parts == [] then part else Join(parts) + "," + part
  {
    if |parts| > 1 {
      JoinPush(parts[1..], part);
      assert (parts + [part])[1..] == parts[1..] + [part];
      assert parts[0] + "," + (Join(parts[1..]) + "," + part) == parts[0] + "," + Join(parts[1..]) + "," + part;
    } else if |parts| == 1 {
      assert (parts + [part])[1..] == [part];
    }
  }

  // The text inside the brackets around it.
  ghost predicate Inside(text: string, open: string, inner: string, close: string) {
    text == open + inner + close
  }

  /** Items are printed in order, with commas between them and brackets around. */
  lemma ArrayText(items: seq<Json>, v: Json)
    ensures Print(Arr([])) == "[]" && Print(Arr([v])) == "[" + Print(v) + "]"
    ensures exists inner :: Inside(Print(Arr(items)), "[", inner, "]") &&
              (items != [] ==> Inside(Print(Arr(items + [v])), "[", inner + "," + Print(v), "]"))
  {
    JoinPush([], Print(v));
    assert PrintItems([v]) == [Print(v)] && [] + [Print(v)] == [Print(v)];
    JoinPush(PrintItems(items), Print(v));
    assert PrintItems(items + [v]) == PrintItems(items) + [Print(v)];
    assert Inside(Print(Arr(items)), "[", Join(PrintItems(items)), "]");
  }

  function FieldText(f: Field): string { Print(Str(f.key)) + ":" + Print(f.value) }

  lemma PresentPush(parts: seq<string>, part: string)
    ensures Present(parts + [part]) == Present(parts) + if part == "" then [] else [part]
  {
    if parts != [] {
      PresentPush(parts[1..], part);
      assert (parts + [part])[1..] == parts[1..] + [part];
    } else {
      assert parts + [part] == [part];
    }
  }

  lemma PrintedFields(fields: seq<Field>, f: Field)
    ensures Present(PrintFields(fields + [f])) ==
            Present(PrintFields(fields)) + if f.value.Undefined? then [] else [FieldText(f)]
  {
    hide Print, Present;
    var part := if f.value.Undefined? then "" else FieldText(f);
    assert PrintFields(fields + [f]) == PrintFields(fields) + [part] by {
      StringText(f.key);
    }
    PresentPush(PrintFields(fields), part);
  }

  lemma ObjectBraces(fields: seq<Field>)
    ensures Print(Obj(fields)) == "{" + Join(Present(PrintFields(fields))) + "}" && Print(Obj([])) == "{}"
  {
  }

  /** Fields are printed in order as key, colon and value; those without a value are left out. */
  lemma ObjectText(fields: seq<Field>, f: Field)
    ensures Print(Obj([])) == "{}"
    ensures f.value.Undefined? ==> Print(Obj(fields + [f])) == Print(Obj(fields))
    ensures exists inner :: Inside(Print(Obj(fields)), "{", inner, "}") &&
              (!f.value.Undefined? ==>
                 Inside(Print(Obj(fields + [f])), "{", (if inner == "" then "" else inner + ",") + FieldText(f), "}"))
  {
    hide Print, Present, PrintFields, Join, FieldText;
    var inner := Join(Present(PrintFields(fields)));
    ObjectBraces(fields);
    ObjectBraces(fields + [f]);
    PrintedFields(fields, f);
    assert Inside(Print(Obj(fields)), "{", inner, "}");
    if f.value.Undefined? {
      assert Present(PrintFields(fields + [f])) == Present(PrintFields(fields));
    } else {
      JoinPush(Present(PrintFields(fields)), FieldText(f));
      SomethingPrinted(fields);
    }
  }

  lemma {:induction false} PartsAreSome(parts: seq<string>)
    ensures forall part :: part in Present(parts) ==> part != ""
  {
    if parts != [] {
      PartsAreSome(parts[1..]);
    }
  }

  // Only an object without values prints nothing between the braces.
  lemma SomethingPrinted(fields: seq<Field>)
    ensures Join(Present(PrintFields(fields))) == "" <==> Present(PrintFields(fields)) == []
  {
    var parts := Present(PrintFields(fields));
    PartsAreSome(PrintFields(fields));
    if parts != [] {
      assert parts[0] in parts;
    }
  }

  // ---- normal forms ----

  /** A normal form has strings for dates and object ids, and otherwise the same items, values and leaves. */
  lemma NormalMeans(v: Json)
    requires Proper(v)
    ensures match v
            case Date(iso) => Normalize(v) == Str(iso)
            case ObjectId(hex) => Normalize(v) == Str(hex)
            case Arr(items) =>
              && Normalize(v).Arr? && |Normalize(v).items| == |items|
              && forall i :: 0 <= i < |items| ==> Normalize(v).items[i] == Normalize(items[i])
            case Obj(fields) =>
              Normalize(v).Obj? && forall k :: Lookup(Normalize(v).fields, k) == Normalize(Lookup(fields, k))
            case _ => Normalize(v) == v
  {
    if v.Obj? {
      hide Normalize, Proper;
      NormalizedObject(v.fields);
      forall k ensures Lookup(Normalize(v).fields, k) == Normalize(Lookup(v.fields, k)) {
        LookupNormalized(v.fields, k);
      }
    }
  }
}
