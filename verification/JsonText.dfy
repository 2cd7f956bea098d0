/**
 Texts as sequences of UTF-16 code units, and their form inside JSON strings: what JSON.stringify writes
 and what a JSON parser reads (section 7 of RFC 8259).
 */
module JsonText {
  import opened Wrappers
  import opened SeqFacts

  type Unit = u: int | 0 <= u < 0x10000
  type Text = seq<Unit>

  datatype Parsed<+T> = Parsed(value: T, rest: Text)

  const QUOTE: Unit := 34
  const BACKSLASH: Unit := 92

  // ----- The order of keys -----

  /** The order in which JavaScript sorts strings. */
  predicate AtMost(a: Text, b: Text) {
    a == [] || (b != [] && (a[0] < b[0] || (a[0] == b[0] && AtMost(a[1..], b[1..]))))
  }

  lemma {:induction false} OrderIsTotal(a: Text, b: Text)
    ensures AtMost(a, b) || AtMost(b, a)
    ensures AtMost(a, b) && AtMost(b, a) ==> a == b
  {
    if a != [] && b != [] {
      OrderIsTotal(a[1..], b[1..]);
      assert a == [a[0]] + a[1..] && b == [b[0]] + b[1..];
    }
  }

  lemma {:induction false} OrderIsTransitive(a: Text, b: Text, c: Text)
    requires AtMost(a, b) && AtMost(b, c)
    ensures AtMost(a, c)
  {
    if a != [] && a[0] == b[0] && b[0] == c[0] {
      OrderIsTransitive(a[1..], b[1..], c[1..]);
    }
  }

  lemma {:induction false} LeastExists(keys: set<Text>)
    requires keys != {}
    ensures exists k :: k in keys && forall j | j in keys :: AtMost(k, j)
  {
    var k :| k in keys;
    var others := keys - {k};
    OrderIsTotal(k, k);
    if others == {} {
      assert keys == {k};
    } else {
      LeastExists(others);
      var l :| l in others && forall j | j in others :: AtMost(l, j);
      OrderIsTotal(k, l);
      var least := if AtMost(k, l) then k else l;
      forall j | j in keys ensures AtMost(least, j) {
        if j != k && AtMost(k, l) {
          OrderIsTransitive(k, l, j);
        }
      }
    }
  }

  /** The keys, sorted. */
  ghost function SortedKeys(keys: set<Text>): (s: seq<Text>)
    ensures forall k :: k in s <==> k in keys
    ensures forall i, j | 0 <= i < j < |s| :: s[i] != s[j] && AtMost(s[i], s[j])
  {
    if keys == {} then []
    else
      LeastExists(keys);
      var k :| k in keys && forall j | j in keys :: AtMost(k, j);
      [k] + SortedKeys(keys - {k})
  }

  // ----- Writing -----

  predicate High(u: Unit) {
    0xD800 <= u < 0xDC00
  }

  predicate Low(u: Unit) {
    0xDC00 <= u < 0xE000
  }

  function Hex(d: int): Unit
    requires 0 <= d < 16
  {
    if d < 10 then 48 + d else 87 + d
  }

  function Unicode(u: Unit): Text {
    [BACKSLASH, 117, Hex(u / 4096), Hex(u / 256 % 16), Hex(u / 16 % 16), Hex(u % 16)]
  }

  /** The letter of a short escape, if there is one. */
  function Short(u: Unit): Option<Unit> {
    if u == QUOTE || u == BACKSLASH then Some(u)
    else if u == 8 then Some(98)
    else if u == 9 then Some(116)
    else if u == 10 then Some(110)
    else if u == 12 then Some(102)
    else if u == 13 then Some(114)
    else None
  }

  function WriteUnit(u: Unit): Text {
    if Short(u).Some? then [BACKSLASH, Short(u).value]
    else if u < 32 then Unicode(u)
    else [u]
  }

  predicate IsPair(s: Text) {
    |s| > 1 && High(s[0]) && Low(s[1])
  }

  function First(s: Text): Text
    requires s != []
  {
    if High(s[0]) || Low(s[0]) then Unicode(s[0]) else WriteUnit(s[0])
  }

  /** Surrogates are only written as they are in pairs. */
  function WriteUnits(s: Text): Text {
    if s == [] then []
    else if IsPair(s) then [s[0]] + ([s[1]] + WriteUnits(s[2..]))
    else First(s) + WriteUnits(s[1..])
  }

  function WriteString(s: Text): Text {
    [QUOTE] + WriteUnits(s) + [QUOTE]
  }

  // ----- Reading -----

  function ReadHex(u: Unit): Option<int> {
    if 48 <= u < 58 then Some(u - 48)
    else if 97 <= u < 103 then Some(u - 87)
    else if 65 <= u < 71 then Some(u - 55)
    else None
  }

  function ReadUnicode(s: Text): (r: Option<Parsed<Unit>>)
    ensures r.Some? ==> |r.value.rest| < |s|
  {
    if |s| < 4 || ReadHex(s[0]).None? || ReadHex(s[1]).None? || ReadHex(s[2]).None? || ReadHex(s[3]).None? then None
    else
      var u := ReadHex(s[0]).value * 4096 + ReadHex(s[1]).value * 256 + ReadHex(s[2]).value * 16 + ReadHex(s[3]).value;
      Some(Parsed(u, s[4..]))
  }

  /** One code unit inside a string, escaped or not. */
  function ReadUnit(s: Text): (r: Option<Parsed<Unit>>)
    ensures r.Some? ==> |r.value.rest| < |s|
  {
    if s == [] || s[0] < 32 || s[0] == QUOTE then None
    else if s[0] != BACKSLASH then Some(Parsed(s[0], s[1..]))
    else if |s| < 2 then None
    else if s[1] == 117 then ReadUnicode(s[2..])
    else if s[1] == QUOTE || s[1] == BACKSLASH || s[1] == 47 then Some(Parsed(s[1], s[2..]))
    else if s[1] == 98 then Some(Parsed(8, s[2..]))
    else if s[1] == 102 then Some(Parsed(12, s[2..]))
    else if s[1] == 110 then Some(Parsed(10, s[2..]))
    else if s[1] == 114 then Some(Parsed(13, s[2..]))
    else if s[1] == 116 then Some(Parsed(9, s[2..]))
    else None
  }

  /** The code units of a string, up to and over its closing quote. */
  function ReadUnits(s: Text): (r: Option<Parsed<Text>>)
    ensures r.Some? ==> |r.value.rest| < |s|
    decreases |s|
  {
    if s != [] && s[0] == QUOTE then Some(Parsed([], s[1..]))
    else
      var first := ReadUnit(s);
      if first.None? then None
      else
        var others := ReadUnits(first.value.rest);
        if others.None? then None else Some(Parsed([first.value.value] + others.value.value, others.value.rest))
  }

  // ----- Reading undoes writing -----

  lemma HexReads(d: int)
    requires 0 <= d < 16
    ensures ReadHex(Hex(d)) == Some(d)
  {
  }

  lemma FourDigits(u: int)
    requires 0 <= u < 0x10000
    ensures u / 4096 < 16 && u == u / 4096 * 4096 + u / 256 % 16 * 256 + u / 16 % 16 * 16 + u % 16
  {
    assert u == u / 16 * 16 + u % 16;
    assert u / 16 == u / 256 * 16 + u / 16 % 16;
    assert u / 256 == u / 4096 * 16 + u / 256 % 16;
  }

  lemma FourRead(a: int, b: int, c: int, d: int, rest: Text)
    requires 0 <= a < 16 && 0 <= b < 16 && 0 <= c < 16 && 0 <= d < 16
    ensures ReadUnicode([Hex(a), Hex(b), Hex(c), Hex(d)] + rest) == Some(Parsed(a * 4096 + b * 256 + c * 16 + d, rest))
  {
    var s: Text := [Hex(a), Hex(b), Hex(c), Hex(d)] + rest;
    HexReads(a);
    HexReads(b);
    HexReads(c);
    HexReads(d);
    assert s[0] == Hex(a) && s[1] == Hex(b) && s[2] == Hex(c) && s[3] == Hex(d) && s[4..] == rest;
  }

  lemma UnicodeReads(u: Unit, rest: Text)
    ensures ReadUnit(Unicode(u) + rest) == Some(Parsed(u, rest))
  {
    FourDigits(u);
    FourRead(u / 4096, u / 256 % 16, u / 16 % 16, u % 16, rest);
    var digits: Text := [Hex(u / 4096), Hex(u / 256 % 16), Hex(u / 16 % 16), Hex(u % 16)];
    assert (Unicode(u) + rest)[2..] == digits + rest;
  }

  lemma UnitReads(u: Unit, rest: Text)
    ensures ReadUnit(WriteUnit(u) + rest) == Some(Parsed(u, rest))
  {
    if u < 32 && Short(u).None? {
      UnicodeReads(u, rest);
    } else {
      assert (WriteUnit(u) + rest)[|WriteUnit(u)|..] == rest;
    }
  }

  ghost predicate Reads(text: Text, s: Text, rest: Text) {
    ReadUnits(text) == Some(Parsed(s, rest))
  }

  /** One more code unit in front. */
  lemma ReadNext(text: Text, u: Unit, more: Text, s: Text, rest: Text)
    requires ReadUnit(text) == Some(Parsed(u, more)) && Reads(more, s, rest)
    ensures Reads(text, [u] + s, rest)
  {
  }

  lemma PairText(s: Text, tail: Text)
    requires IsPair(s)
    ensures WriteUnits(s) + tail == [s[0]] + ([s[1]] + (WriteUnits(s[2..]) + tail))
    ensures s == [s[0]] + ([s[1]] + s[2..])
  {
  }

  lemma OneText(s: Text, tail: Text)
    requires s != [] && !IsPair(s)
    ensures WriteUnits(s) + tail == First(s) + (WriteUnits(s[1..]) + tail)
    ensures s == [s[0]] + s[1..]
  {
    Associative(First(s), WriteUnits(s[1..]), tail);
  }

  lemma FirstReads(s: Text, more: Text)
    requires s != []
    ensures ReadUnit(First(s) + more) == Some(Parsed(s[0], more))
  {
    UnicodeReads(s[0], more);
    UnitReads(s[0], more);
  }

  /** Reading the written form of a text, and its closing quote, yields the text, lone surrogates included. */
  lemma {:induction false} UnitsRead(s: Text, rest: Text)
    ensures Reads(WriteUnits(s) + ([QUOTE] + rest), s, rest)
    decreases |s|
  {
    var tail := [QUOTE] + rest;
    if s == [] {
      assert WriteUnits(s) + tail == tail;
    } else if IsPair(s) {
      var more := WriteUnits(s[2..]) + tail;
      UnitsRead(s[2..], rest);
      PairText(s, tail);
      ReadNext([s[1]] + more, s[1], more, s[2..], rest);
      ReadNext([s[0]] + ([s[1]] + more), s[0], [s[1]] + more, [s[1]] + s[2..], rest);
    } else {
      var more := WriteUnits(s[1..]) + tail;
      UnitsRead(s[1..], rest);
      OneText(s, tail);
      FirstReads(s, more);
      ReadNext(First(s) + more, s[0], more, s[1..], rest);
    }
  }

  // ----- Integers -----

  predicate Digit(u: Unit) {
    48 <= u < 58
  }

  function WriteNat(n: nat): (s: Text)
    ensures s != [] && (forall i | 0 <= i < |s| :: Digit(s[i])) && (s[0] == 48 ==> n == 0)
  {
    if n < 10 then [48 + n] else WriteNat(n / 10) + [48 + n % 10]
  }

  function WriteInt(n: int): Text {
    if n < 0 then [45] + WriteNat(-n) else WriteNat(n)
  }

  function ValueOf(digits: Text): nat
    requires forall i | 0 <= i < |digits| :: Digit(digits[i])
  {
    if digits == [] then 0
    else
      var n := |digits| - 1;
      assert Digit(digits[n]);
      ValueOf(digits[..n]) * 10 + (digits[n] as int - 48)
  }

  /** The number of digits at the front. */
  function Span(s: Text): (n: nat)
    ensures n <= |s| && (forall i | 0 <= i < n :: Digit(s[i])) && (n < |s| ==> !Digit(s[n]))
  {
    if s != [] && Digit(s[0]) then 1 + Span(s[1..]) else 0
  }

  /** A non-negative integer without superfluous zeros, a fraction or an exponent. */
  function ReadNat(s: Text): (r: Option<Parsed<nat>>)
    ensures r.Some? ==> |r.value.rest| < |s|
  {
    var n := Span(s);
    if n == 0 || (n > 1 && s[0] == 48) then None
    else if n < |s| && (s[n] == 46 || s[n] == 69 || s[n] == 101) then None
    else Some(Parsed(ValueOf(s[..n]), s[n..]))
  }

  lemma {:induction false} ValueOfWritten(n: nat)
    ensures ValueOf(WriteNat(n)) == n
  {
    if 10 <= n {
      ValueOfWritten(n / 10);
      assert WriteNat(n)[..|WriteNat(n)| - 1] == WriteNat(n / 10);
    }
  }

  /** What may follow a value. */
  predicate Stops(rest: Text) {
    rest == [] || rest[0] == 44 || rest[0] == 93 || rest[0] == 125
  }

  lemma {:induction false} SpanOf(digits: Text, rest: Text)
    requires (forall i | 0 <= i < |digits| :: Digit(digits[i])) && Stops(rest)
    ensures Span(digits + rest) == |digits|
  {
    if digits == [] {
      assert digits + rest == rest;
    } else {
      SpanOf(digits[1..], rest);
      assert (digits + rest)[1..] == digits[1..] + rest;
    }
  }

  lemma NatReads(n: nat, rest: Text)
    requires Stops(rest)
    ensures ReadNat(WriteNat(n) + rest) == Some(Parsed(n, rest))
  {
    var s := WriteNat(n);
    SpanOf(s, rest);
    ValueOfWritten(n);
    assert (s + rest)[..|s|] == s && (s + rest)[|s|..] == rest;
    if |s| > 1 && s[0] == 48 {
      assert false;
    }
  }
}
