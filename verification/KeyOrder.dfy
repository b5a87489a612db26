/**
 * What the order of keys means: strings compare as their sequences of UTF-16 code units, and array
 * index keys as the numbers they are written for.
 */
module KeyOrder {
  import opened CanonicalJson

  // ---- strings ----

  // The code units of a character: one, or a surrogate pair.
  function CodeUnits(c: char): seq<nat> {
    var n := c as int;
    if n < 0x10000 then [n] else [0xD800 + (n - 0x10000) / 0x400, 0xDC00 + (n - 0x10000) % 0x400]
  }

  function Utf16(s: string): seq<nat> { if s == "" then [] else CodeUnits(s[0]) + Utf16(s[1..]) }

  predicate LexicographicallyLess(a: seq<nat>, b: seq<nat>) {
    b != [] && (a == [] || a[0] < b[0] || (a[0] == b[0] && LexicographicallyLess(a[1..], b[1..])))
  }

  lemma {:induction false} CommonStart(u: seq<nat>, a: seq<nat>, b: seq<nat>)
    ensures LexicographicallyLess(u + a, u + b) <==> LexicographicallyLess(a, b)
  {
    if u == [] {
      assert u + a == a && u + b == b;
    } else {
      assert (u + a)[1..] == u[1..] + a && (u + b)[1..] == u[1..] + b;
      CommonStart(u[1..], a, b);
    }
  }

  lemma FirstDecides(x: seq<nat>, y: seq<nat>)
    requires x != [] && y != [] && x[0] != y[0]
    ensures LexicographicallyLess(x, y) <==> x[0] < y[0]
  {
  }

  lemma SecondDecides(x: seq<nat>, y: seq<nat>)
    requires |x| > 1 && |y| > 1 && x[0] == y[0] && x[1] != y[1]
    ensures LexicographicallyLess(x, y) <==> x[1] < y[1]
  {
    FirstDecides(x[1..], y[1..]);
  }

  // Two different characters already decide.
  lemma DifferentCharacters(c: char, d: char, a: seq<nat>, b: seq<nat>)
    requires c != d
    ensures LexicographicallyLess(CodeUnits(c) + a, CodeUnits(d) + b) <==> Unit(c) < Unit(d)
  {
    hide LexicographicallyLess;
    var u, v := CodeUnits(c), CodeUnits(d);
    var x, y := u + a, v + b;
    if u[0] == v[0] {
      SecondDecides(x, y);
    } else {
      FirstDecides(x, y);
    }
  }

  /** The comparison is that of the UTF-16 code units, lexicographically. */
  lemma {:induction false} PrecedesIsByCodeUnits(s: string, t: string)
    ensures Precedes(s, t) <==> LexicographicallyLess(Utf16(s), Utf16(t))
  {
    if s != "" && t != "" {
      if s[0] == t[0] {
        PrecedesIsByCodeUnits(s[1..], t[1..]);
        CommonStart(CodeUnits(s[0]), Utf16(s[1..]), Utf16(t[1..]));
      } else {
        DifferentCharacters(s[0], t[0], Utf16(s[1..]), Utf16(t[1..]));
        SameUnitSameCharacter(s[0], t[0]);
      }
    }
  }

  lemma SameUnitSameCharacter(c: char, d: char)
    ensures Unit(c) == Unit(d) ==> c == d
  {
  }

  // ---- array index keys ----

  predicate Decimal(k: string) { k != "" && forall i :: 0 <= i < |k| ==> '0' <= k[i] <= '9' }

  function DigitValue(c: char): int { c as int - '0' as int }

  // The number a decimal text is written for, most significant digit first.
  function Value(k: string): int { if k == "" then 0 else DigitValue(k[0]) * Power10(|k| - 1) + Value(k[1..]) }

  function Power10(n: nat): (p: nat)
    ensures p >= 1
  {
    if n == 0 then 1 else 10 * Power10(n - 1)
  }

  lemma {:induction false} ValueIsBelow(k: string)
    requires forall i :: 0 <= i < |k| ==> '0' <= k[i] <= '9'
    ensures 0 <= Value(k) < Power10(|k|)
  {
    if k != "" {
      ValueIsBelow(k[1..]);
      Scale(DigitValue(k[0]), 9, Power10(|k| - 1));
    }
  }

  lemma Scale(a: nat, b: nat, p: nat)
    requires a <= b
    ensures 0 <= a * p <= b * p
  {
    assert b * p == a * p + (b - a) * p;
  }

  // Comparing a digit and a rest below its weight.
  lemma CompareParts(d: int, e: int, x: int, y: int, p: nat)
    requires 0 <= x < p && 0 <= y < p
    ensures d * p + x < e * p + y <==> d < e || (d == e && x < y)
  {
    if d < e {
      assert e * p == d * p + (e - d) * p;
      Scale(1, e - d, p);
    } else if e < d {
      assert d * p == e * p + (d - e) * p;
      Scale(1, d - e, p);
    }
  }

  lemma {:induction false} SameLengthByValue(k: string, l: string)
    requires |k| == |l| && (forall i :: 0 <= i < |k| ==> '0' <= k[i] <= '9')
    requires forall i :: 0 <= i < |l| ==> '0' <= l[i] <= '9'
    ensures Precedes(k, l) <==> Value(k) < Value(l)
  {
    if k != "" {
      SameLengthByValue(k[1..], l[1..]);
      ValueIsBelow(k[1..]);
      ValueIsBelow(l[1..]);
      CompareParts(DigitValue(k[0]), DigitValue(l[0]), Value(k[1..]), Value(l[1..]), Power10(|k| - 1));
      assert DigitValue(k[0]) == DigitValue(l[0]) <==> k[0] == l[0];
    }
  }

  lemma {:induction false} PowersGrow(m: nat, n: nat)
    requires m <= n
    ensures Power10(m) <= Power10(n)
  {
    if m < n {
      PowersGrow(m, n - 1);
    }
  }

  // Without a leading zero a shorter text is a smaller number.
  lemma ShorterIsLess(k: string, l: string)
    requires Decimal(k) && Decimal(l) && l[0] != '0' && |k| < |l|
    ensures Value(k) < Value(l)
  {
    ValueIsBelow(k);
    ValueIsBelow(l[1..]);
    PowersGrow(|k|, |l| - 1);
    Scale(1, DigitValue(l[0]), Power10(|l| - 1));
  }

  lemma ValueOf(c: char, rest: string, p: nat)
    requires p == Power10(|rest|)
    ensures Value([c] + rest) == DigitValue(c) * p + Value(rest) && Power10(|rest| + 1) == 10 * p
  {
    assert ([c] + rest)[1..] == rest;
  }

  lemma MaxIndex()
    ensures Value("4294967295") == 4294967295
  {
    hide Value, Power10;
    ValueIsZero();
    ValueOf('5', "", 1);
    ValueOf('9', "5", 10);
    ValueOf('2', "95", 100);
    ValueOf('7', "295", 1000);
    ValueOf('6', "7295", 10000);
    ValueOf('9', "67295", 100000);
    ValueOf('4', "967295", 1000000);
    ValueOf('9', "4967295", 10000000);
    ValueOf('2', "94967295", 100000000);
    ValueOf('4', "294967295", 1000000000);
    assert ['5'] + "" == "5" && ['9'] + "5" == "95" && ['2'] + "95" == "295" && ['7'] + "295" == "7295";
    assert ['6'] + "7295" == "67295" && ['9'] + "67295" == "967295" && ['4'] + "967295" == "4967295";
    assert ['9'] + "4967295" == "94967295" && ['2'] + "94967295" == "294967295";
    assert ['4'] + "294967295" == "4294967295";
  }

  lemma ValueIsZero()
    ensures Value("") == 0 && Power10(0) == 1
  {
  }

  lemma LengthThenDigits(k: string, m: string)
    requires Decimal(k) && Decimal(m) && m[0] != '0' && (k[0] == '0' ==> |k| == 1) && |m| > 1
    ensures |k| < |m| || (|k| == |m| && Precedes(k, m)) <==> Value(k) < Value(m)
  {
    if |k| < |m| {
      ShorterIsLess(k, m);
    } else if |k| == |m| {
      SameLengthByValue(k, m);
    } else {
      ShorterIsLess(m, k);
    }
  }

  /** An index key is a number from 0 to 2^32 - 2 in its usual notation. */
  lemma IndexIsNumber(k: string)
    ensures IsIndex(k) <==> Decimal(k) && (k[0] == '0' ==> |k| == 1) && Value(k) <= 0xFFFF_FFFE
  {
    hide Value, Precedes, Power10;
    if Decimal(k) && (k[0] == '0' ==> |k| == 1) {
      MaxIndex();
      LengthThenDigits(k, "4294967295");
    }
  }

  /** Index keys come first and by value, other keys by their code units. */
  lemma KeyOrderMeans(k: string, l: string)
    ensures IsIndex(k) && IsIndex(l) ==> (KeyBefore(k, l) <==> Value(k) < Value(l))
    ensures IsIndex(k) && !IsIndex(l) ==> KeyBefore(k, l) && !KeyBefore(l, k)
    ensures !IsIndex(k) && !IsIndex(l) ==> (KeyBefore(k, l) <==> LexicographicallyLess(Utf16(k), Utf16(l)))
  {
    PrecedesIsByCodeUnits(k, l);
    if IsIndex(k) && IsIndex(l) {
      if |k| == |l| {
        SameLengthByValue(k, l);
      } else if |k| < |l| {
        ShorterIsLess(k, l);
      } else {
        ShorterIsLess(l, k);
      }
    }
  }
}
