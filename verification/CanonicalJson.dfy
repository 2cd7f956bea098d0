/**
 Canonical JSON (src/phase3/contracts.ts:460-468), a parser for it, and the journal envelope built on
 both (src/phase3/journal.ts:824-858). Objects are maps, so the order of their keys is not part of a value.
 */
module CanonicalJson {
  import opened Wrappers
  import opened SeqFacts
  import opened JsonText

  datatype Json = Null | Bool(b: bool) | Num(n: int) | Str(s: Text) | Arr(items: seq<Json>) | Obj(fields: map<Text, Json>)

  const NULL: Text := [110, 117, 108, 108]
  const TRUE: Text := [116, 114, 117, 101]
  const FALSE: Text := [102, 97, 108, 115, 101]

  // ----- Printing -----

  ghost function Print(v: Json): Text
    decreases v, 1, 0
  {
    match v
    case Null => NULL
    case Bool(b) => if b then TRUE else FALSE
    case Num(n) => WriteInt(n)
    case Str(s) => WriteString(s)
    case Arr(items) => [91] + PrintItems(v, 0) + [93]
    case Obj(fields) => [123] + PrintMembers(v, SortedKeys(fields.Keys)) + [125]
  }

  /** The items from the i-th one on, joined by commas. */
  ghost function PrintItems(v: Json, i: nat): Text
    requires v.Arr? && i <= |v.items|
    decreases v, 0, |v.items| - i
  {
    if i == |v.items| then []
    else if i + 1 == |v.items| then Print(v.items[i])
    else Print(v.items[i]) + ([44] + PrintItems(v, i + 1))
  }

  ghost function PrintMember(v: Json, key: Text): Text
    requires v.Obj? && key in v.fields
    decreases v, 0, 0
  {
    WriteString(key) + ([58] + Print(v.fields[key]))
  }

  ghost function PrintMembers(v: Json, keys: seq<Text>): Text
    requires v.Obj? && forall k | k in keys :: k in v.fields
    decreases v, 0, |keys| + 1
  {
    if keys == [] then []
    else if |keys| == 1 then PrintMember(v, keys[0])
    else PrintMember(v, keys[0]) + ([44] + PrintMembers(v, keys[1..]))
  }

  // ----- Parsing -----

  predicate Space(u: Unit) {
    u == 32 || u == 9 || u == 10 || u == 13
  }

  function Skip(s: Text): (r: Text)
    ensures |r| <= |s| && (r != [] ==> !Space(r[0]))
  {
    if s != [] && Space(s[0]) then Skip(s[1..]) else s
  }

  function Literal(s: Text, word: Text, v: Json): Option<Parsed<Json>> {
    if |word| <= |s| && s[..|word|] == word then Some(Parsed(v, s[|word|..])) else None
  }

  /** A value (section 3 of RFC 8259), without fractions and exponents. */
  function ReadValue(s: Text): (r: Option<Parsed<Json>>)
    ensures r.Some? ==> |r.value.rest| < |s|
    decreases |s|, 1
  {
    var t := Skip(s);
    if t == [] then None
    else if t[0] == 123 then
      var u := Skip(t[1..]);
      if u != [] && u[0] == 125 then Some(Parsed(Obj(map[]), u[1..]))
      else
        var members := ReadMembers(t[1..]);
        if members.None? then None else Some(Parsed(Obj(members.value.value), members.value.rest))
    else if t[0] == 91 then
      var u := Skip(t[1..]);
      if u != [] && u[0] == 93 then Some(Parsed(Arr([]), u[1..]))
      else
        var items := ReadItems(t[1..]);
        if items.None? then None else Some(Parsed(Arr(items.value.value), items.value.rest))
    else ReadScalar(t)
  }

  function ReadScalar(t: Text): (r: Option<Parsed<Json>>)
    requires t != []
    ensures r.Some? ==> |r.value.rest| < |t|
  {
    if t[0] == QUOTE then
      var s := ReadUnits(t[1..]);
      if s.None? then None else Some(Parsed(Str(s.value.value), s.value.rest))
    else if t[0] == 110 then Literal(t, NULL, Null)
    else if t[0] == 116 then Literal(t, TRUE, Bool(true))
    else if t[0] == 102 then Literal(t, FALSE, Bool(false))
    else if t[0] == 45 then
      var n := ReadNat(t[1..]);
      if n.None? then None else Some(Parsed(Num(-(n.value.value as int)), n.value.rest))
    else
      var n := ReadNat(t);
      if n.None? then None else Some(Parsed(Num(n.value.value), n.value.rest))
  }

  function ReadItems(s: Text): (r: Option<Parsed<seq<Json>>>)
    ensures r.Some? ==> |r.value.rest| < |s|
    decreases |s|, 2
  {
    var item := ReadValue(s);
    if item.None? then None
    else
      var t := Skip(item.value.rest);
      if t != [] && t[0] == 93 then Some(Parsed([item.value.value], t[1..]))
      else if t != [] && t[0] == 44 then
        var others := ReadItems(t[1..]);
        if others.None? then None else Some(Parsed([item.value.value] + others.value.value, others.value.rest))
      else None
  }

  /** A key, a colon and a value. */
  function ReadMember(s: Text): (r: Option<Parsed<(Text, Json)>>)
    ensures r.Some? ==> |r.value.rest| < |s|
    decreases |s|, 2
  {
    var t := Skip(s);
    if t == [] || t[0] != QUOTE then None
    else
      var key := ReadUnits(t[1..]);
      if key.None? then None
      else
        var u := Skip(key.value.rest);
        if u == [] || u[0] != 58 then None
        else
          var value := ReadValue(u[1..]);
          if value.None? then None else Some(Parsed((key.value.value, value.value.value), value.value.rest))
  }

  /** Of members with the same key, the last one counts. */
  function ReadMembers(s: Text): (r: Option<Parsed<map<Text, Json>>>)
    ensures r.Some? ==> |r.value.rest| < |s|
    decreases |s|, 3
  {
    var member := ReadMember(s);
    if member.None? then None
    else
      var first := map[member.value.value.0 := member.value.value.1];
      var t := Skip(member.value.rest);
      if t != [] && t[0] == 125 then Some(Parsed(first, t[1..]))
      else if t != [] && t[0] == 44 then
        var others := ReadMembers(t[1..]);
        if others.None? then None else Some(Parsed(first + others.value.value, others.value.rest))
      else None
  }

  function Parse(text: Text): Option<Json> {
    var v := ReadValue(text);
    if v.Some? && Skip(v.value.rest) == [] then Some(v.value.value) else None
  }

  // ----- Parsing undoes printing -----

  ghost predicate Value(text: Text, v: Json, rest: Text) {
    ReadValue(text) == Some(Parsed(v, rest))
  }

  ghost predicate Items(text: Text, items: seq<Json>, rest: Text) {
    ReadItems(text) == Some(Parsed(items, rest))
  }

  ghost predicate Member(text: Text, key: Text, v: Json, rest: Text) {
    ReadMember(text) == Some(Parsed((key, v), rest))
  }

  ghost predicate Members(text: Text, fields: map<Text, Json>, rest: Text) {
    ReadMembers(text) == Some(Parsed(fields, rest))
  }

  /** How a printed value begins. */
  lemma Begins(v: Json)
    ensures Print(v) != [] && !Space(Print(v)[0]) && Print(v)[0] != 93 && Print(v)[0] != 125
  {
  }

  lemma NoSkip(s: Text, rest: Text)
    requires s != [] && !Space(s[0])
    ensures Skip(s + rest) == s + rest
  {
  }

  ghost predicate Scalar(text: Text, v: Json, rest: Text) {
    text != [] && ReadScalar(text) == Some(Parsed(v, rest))
  }

  lemma LiteralReads(word: Text, v: Json, rest: Text)
    ensures Literal(word + rest, word, v) == Some(Parsed(v, rest))
  {
    assert (word + rest)[..|word|] == word && (word + rest)[|word|..] == rest;
  }

  lemma PlainReads(s: Text, n: nat, rest: Text)
    requires s != [] && Digit(s[0]) && ReadNat(s) == Some(Parsed(n, rest))
    ensures Scalar(s, Num(n), rest)
  {
  }

  lemma NegativeReads(s: Text, n: nat, rest: Text)
    requires ReadNat(s) == Some(Parsed(n, rest))
    ensures Scalar([45] + s, Num(-(n as int)), rest)
  {
    assert ([45] + s)[1..] == s;
  }

  lemma NumReads(n: int, rest: Text)
    requires Stops(rest)
    ensures Scalar(WriteInt(n) + rest, Num(n), rest)
  {
    var digits := WriteNat(if n < 0 then -n else n);
    NatReads(if n < 0 then -n else n, rest);
    if n < 0 {
      NegativeReads(digits + rest, -n, rest);
      Associative([45], digits, rest);
    } else {
      assert Digit(digits[0]);
      PlainReads(digits + rest, n, rest);
    }
  }

  lemma StrReads(s: Text, rest: Text)
    ensures Scalar(WriteString(s) + rest, Str(s), rest)
  {
    StringReads(s, rest);
  }

  lemma StringReads(s: Text, rest: Text)
    ensures WriteString(s) + rest != [] && (WriteString(s) + rest)[0] == QUOTE
    ensures Reads((WriteString(s) + rest)[1..], s, rest)
  {
    UnitsRead(s, rest);
    assert (WriteString(s) + rest)[1..] == WriteUnits(s) + ([QUOTE] + rest);
  }

  lemma ScalarReads(v: Json, rest: Text)
    requires !v.Arr? && !v.Obj? && Stops(rest)
    ensures Scalar(Print(v) + rest, v, rest)
  {
    match v
    case Null => LiteralReads(NULL, v, rest);
    case Bool(b) => LiteralReads(if b then TRUE else FALSE, v, rest);
    case Num(n) => NumReads(n, rest);
    case Str(s) => StrReads(s, rest);
    case _ =>
  }

  lemma ScalarIsValue(v: Json, rest: Text)
    requires !v.Arr? && !v.Obj? && Scalar(Print(v) + rest, v, rest)
    ensures Value(Print(v) + rest, v, rest)
  {
    Begins(v);
    NoSkip(Print(v), rest);
  }

  /** Reading the printed form of a value, whatever follows it, yields the value. */
  lemma {:induction false} ValueReads(v: Json, rest: Text)
    requires Stops(rest)
    ensures Value(Print(v) + rest, v, rest)
    decreases v, 1, 0
  {
    match v
    case Arr(items) =>
      if items == [] {
        EmptyReads(v, rest);
      } else {
        ItemsRead(v, 0, rest);
        ArrayReads(v, rest);
      }
    case Obj(fields) =>
      var keys := SortedKeys(fields.Keys);
      if keys == [] {
        EmptyReads(v, rest);
      } else {
        MembersRead(v, keys, rest);
        ObjectReads(v, keys, rest);
      }
    case _ =>
      ScalarReads(v, rest);
      ScalarIsValue(v, rest);
  }

  lemma EmptyReads(v: Json, rest: Text)
    requires (v.Arr? && v.items == []) || (v.Obj? && SortedKeys(v.fields.Keys) == [])
    ensures Value(Print(v) + rest, v, rest)
  {
    var open: Unit, close: Unit := if v.Arr? then 91 else 123, if v.Arr? then 93 else 125;
    assert Print(v) == [open, close];
    assert (Print(v) + rest)[1..] == [close] + rest && ([close] + rest)[1..] == rest;
    if v.Obj? {
      assert v.fields == map[] by {
        assert forall k :: k in v.fields ==> k in SortedKeys(v.fields.Keys);
      }
    }
  }

  lemma {:induction false} ItemsRead(v: Json, i: nat, rest: Text)
    requires v.Arr? && i < |v.items|
    ensures Items(PrintItems(v, i) + ([93] + rest), v.items[i..], rest)
    decreases v, 0, |v.items| - i
  {
    var tail := [93] + rest;
    var item := v.items[i];
    if i + 1 == |v.items| {
      ValueReads(item, tail);
      LastItem(Print(item) + tail, item, tail, rest);
      assert v.items[i..] == [item];
    } else {
      var more := PrintItems(v, i + 1) + tail;
      ItemsRead(v, i + 1, rest);
      ValueReads(item, [44] + more);
      NextItem(Print(item) + ([44] + more), item, more, v.items[i + 1..], rest);
      assert PrintItems(v, i) + tail == Print(item) + ([44] + more);
      assert v.items[i..] == [item] + v.items[i + 1..];
    }
  }

  lemma LastItem(text: Text, item: Json, tail: Text, rest: Text)
    requires Value(text, item, tail) && tail == [93] + rest
    ensures Items(text, [item], rest)
  {
    assert tail[1..] == rest;
  }

  lemma NextItem(text: Text, item: Json, more: Text, items: seq<Json>, rest: Text)
    requires Value(text, item, [44] + more) && Items(more, items, rest)
    ensures Items(text, [item] + items, rest)
  {
    assert ([44] + more)[1..] == more;
  }

  lemma ArrayReads(v: Json, rest: Text)
    requires v.Arr? && v.items != [] && Items(PrintItems(v, 0) + ([93] + rest), v.items[0..], rest)
    ensures Value(Print(v) + rest, v, rest)
  {
    var inner := PrintItems(v, 0) + ([93] + rest);
    assert Print(v) + rest == [91] + inner && ([91] + inner)[1..] == inner;
    Begins(v.items[0]);
    assert v.items[0..] == v.items;
  }

  // ----- Objects -----

  /** The part of an object that has these keys. */
  ghost function Part(v: Json, keys: seq<Text>): map<Text, Json>
    requires v.Obj? && forall k | k in keys :: k in v.fields
  {
    map k | k in keys :: v.fields[k]
  }

  lemma MemberOpens(quoted: Text, key: Text, text: Text, value: Json, rest: Text)
    requires quoted != [] && quoted[0] == QUOTE && Reads(quoted[1..], key, [58] + text) && Value(text, value, rest)
    ensures Member(quoted, key, value, rest)
  {
    var colon: Text := [58] + text;
    assert colon[1..] == text;
    assert Skip(quoted) == quoted && Skip(colon) == colon;
  }

  lemma MemberReads(v: Json, key: Text, rest: Text)
    requires v.Obj? && key in v.fields && Value(Print(v.fields[key]) + rest, v.fields[key], rest)
    ensures Member(PrintMember(v, key) + rest, key, v.fields[key], rest)
  {
    var value := Print(v.fields[key]);
    var tail: Text := [58] + (value + rest);
    StringReads(key, tail);
    MemberOpens(WriteString(key) + tail, key, value + rest, v.fields[key], rest);
    Regroup(WriteString(key), 58, value, rest);
  }

  lemma Regroup(a: Text, u: Unit, b: Text, rest: Text)
    ensures a + ([u] + b) + rest == a + ([u] + (b + rest))
  {
  }

  lemma {:induction false} MembersRead(v: Json, keys: seq<Text>, rest: Text)
    requires v.Obj? && keys != [] && forall k | k in keys :: k in v.fields
    requires forall i, j | 0 <= i < j < |keys| :: keys[i] != keys[j]
    ensures Members(PrintMembers(v, keys) + ([125] + rest), Part(v, keys), rest)
    decreases v, 0, |keys|
  {
    var key, tail := keys[0], [125] + rest;
    if |keys| == 1 {
      ValueReads(v.fields[key], tail);
      MemberReads(v, key, tail);
      LastMember(PrintMember(v, key) + tail, key, v.fields[key], tail, rest);
      PartOfOne(v, keys);
    } else {
      MembersRead(v, keys[1..], rest);
      ValueReads(v.fields[key], [44] + (PrintMembers(v, keys[1..]) + tail));
      FirstMember(v, keys, tail, rest);
    }
  }

  lemma FirstMember(v: Json, keys: seq<Text>, tail: Text, rest: Text)
    requires v.Obj? && 1 < |keys| && forall k | k in keys :: k in v.fields
    requires forall i, j | 0 <= i < j < |keys| :: keys[i] != keys[j]
    requires Members(PrintMembers(v, keys[1..]) + tail, Part(v, keys[1..]), rest)
    requires Value(Print(v.fields[keys[0]]) + ([44] + (PrintMembers(v, keys[1..]) + tail)), v.fields[keys[0]],
                   [44] + (PrintMembers(v, keys[1..]) + tail))
    ensures Members(PrintMembers(v, keys) + tail, Part(v, keys), rest)
  {
    var key, others, part := keys[0], PrintMembers(v, keys[1..]), Part(v, keys[1..]);
    var more := others + tail;
    MemberReads(v, key, [44] + more);
    NextMember(PrintMember(v, key) + ([44] + more), key, v.fields[key], more, part, rest);
    Regroup(PrintMember(v, key), 44, others, tail);
    PartSplits(v, keys);
  }

  lemma PartOfOne(v: Json, keys: seq<Text>)
    requires v.Obj? && |keys| == 1 && keys[0] in v.fields
    ensures Part(v, keys) == map[keys[0] := v.fields[keys[0]]]
  {
    assert forall k :: k in keys <==> k == keys[0];
  }

  lemma PartSplits(v: Json, keys: seq<Text>)
    requires v.Obj? && keys != [] && forall k | k in keys :: k in v.fields
    ensures Part(v, keys) == map[keys[0] := v.fields[keys[0]]] + Part(v, keys[1..])
  {
    assert forall k :: k in keys <==> k == keys[0] || k in keys[1..];
  }

  lemma LastMember(text: Text, key: Text, value: Json, tail: Text, rest: Text)
    requires Member(text, key, value, tail) && tail == [125] + rest
    ensures Members(text, map[key := value], rest)
  {
    assert tail[1..] == rest;
  }

  lemma NextMember(text: Text, key: Text, value: Json, more: Text, fields: map<Text, Json>, rest: Text)
    requires Member(text, key, value, [44] + more) && Members(more, fields, rest)
    ensures Members(text, map[key := value] + fields, rest)
  {
    assert ([44] + more)[1..] == more;
  }

  lemma MembersBegin(v: Json, keys: seq<Text>)
    requires v.Obj? && keys != [] && forall k | k in keys :: k in v.fields
    ensures PrintMembers(v, keys) != [] && PrintMembers(v, keys)[0] == QUOTE
  {
    assert WriteString(keys[0])[0] == QUOTE;
    assert PrintMember(v, keys[0])[0] == QUOTE;
  }

  lemma ObjectOpens(inner: Text, fields: map<Text, Json>, rest: Text)
    requires inner != [] && inner[0] == QUOTE && Members(inner, fields, rest)
    ensures Value([123] + inner, Obj(fields), rest)
  {
    var text: Text := [123] + inner;
    assert text[1..] == inner;
    assert Skip(text) == text && Skip(inner) == inner;
  }

  lemma ObjectText(v: Json, keys: seq<Text>, rest: Text)
    requires v.Obj? && keys == SortedKeys(v.fields.Keys)
    ensures Print(v) + rest == [123] + (PrintMembers(v, keys) + ([125] + rest))
  {
    var members := PrintMembers(v, keys);
    assert Print(v) == [123] + members + [125];
    Bracket(123, members, 125, rest);
  }

  lemma Bracket(open: Unit, inner: Text, close: Unit, rest: Text)
    ensures [open] + inner + [close] + rest == [open] + (inner + ([close] + rest))
  {
  }

  lemma PartIsAll(v: Json, keys: seq<Text>)
    requires v.Obj? && keys == SortedKeys(v.fields.Keys)
    ensures Part(v, keys) == v.fields
  {
  }

  lemma ObjectReads(v: Json, keys: seq<Text>, rest: Text)
    requires v.Obj? && keys == SortedKeys(v.fields.Keys) && keys != []
    requires Members(PrintMembers(v, keys) + ([125] + rest), Part(v, keys), rest)
    ensures Value(Print(v) + rest, v, rest)
  {
    var members := PrintMembers(v, keys);
    MembersBegin(v, keys);
    assert (members + ([125] + rest))[0] == members[0];
    ObjectText(v, keys, rest);
    PartIsAll(v, keys);
    ObjectOpens(members + ([125] + rest), v.fields, rest);
  }

  // ----- The main results -----

  /** Parsing undoes printing. */
  lemma ParseOfPrint(v: Json)
    ensures Parse(Print(v)) == Some(v)
  {
    ValueReads(v, []);
    assert Print(v) + [] == Print(v);
  }

  /** Equal canonical texts come from equal values. */
  lemma PrintIsInjective(v: Json, w: Json)
    ensures Print(v) == Print(w) <==> v == w
  {
    ParseOfPrint(v);
    ParseOfPrint(w);
  }

  // ----- Journal envelopes -----

  // "schemaVersion", "record" and "recordSha256"
  const SCHEMA_VERSION: Text := [115, 99, 104, 101, 109, 97, 86, 101, 114, 115, 105, 111, 110]
  const RECORD: Text := [114, 101, 99, 111, 114, 100]
  const RECORD_SHA256: Text := [114, 101, 99, 111, 114, 100, 83, 104, 97, 50, 53, 54]

  function Core(record: Json): Json {
    Obj(map[SCHEMA_VERSION := Num(2), RECORD := record])
  }

  /** src/phase3/journal.ts:824-835, for any digest function */
  ghost function Envelope(record: Json, sha: Text -> Text): Json {
    Obj(map[SCHEMA_VERSION := Num(2), RECORD := record, RECORD_SHA256 := Str(sha(Print(Core(record))))])
  }

  /** What the envelope's schema demands, given what the record's schema does. */
  predicate EnvelopeShape(v: Json, isRecord: Json -> bool) {
    && v.Obj? && v.fields.Keys == {SCHEMA_VERSION, RECORD, RECORD_SHA256}
    && v.fields[SCHEMA_VERSION] == Num(2) && isRecord(v.fields[RECORD]) && v.fields[RECORD_SHA256].Str?
  }

  /** src/phase3/journal.ts:837-858 */
  ghost function ParseEnvelope(text: Text, sha: Text -> Text, isRecord: Json -> bool): Option<Json> {
    var v := Parse(text);
    if v.None? || !EnvelopeShape(v.value, isRecord) || Print(v.value) != text then None
    else
      var record := v.value.fields[RECORD];
      if v.value.fields[RECORD_SHA256] != Str(sha(Print(Core(record)))) then None else Some(record)
  }

  lemma KeysDiffer()
    ensures SCHEMA_VERSION != RECORD && RECORD != RECORD_SHA256 && RECORD_SHA256 != SCHEMA_VERSION
  {
    assert |SCHEMA_VERSION| == 13 && |RECORD| == 6 && |RECORD_SHA256| == 12;
  }

  lemma ThreeFields<K, V>(m: map<K, V>, a: K, b: K, c: K)
    requires m.Keys == {a, b, c} && a != b && b != c && c != a
    ensures m == map[a := m[a], b := m[b], c := m[c]]
  {
    var n := map[a := m[a], b := m[b], c := m[c]];
    assert forall k :: k in m <==> k in n;
  }

  lemma ThreeKeys<K, V>(a: K, b: K, c: K, x: V, y: V, z: V)
    requires a != b && b != c && c != a
    ensures var m := map[a := x, b := y, c := z]; m.Keys == {a, b, c} && m[a] == x && m[b] == y && m[c] == z
  {
    var m := map[a := x, b := y, c := z];
    assert forall k :: k in m.Keys <==> k == a || k == b || k == c;
  }

  lemma EnvelopeHasShape(record: Json, sha: Text -> Text, isRecord: Json -> bool)
    ensures EnvelopeShape(Envelope(record, sha), isRecord) <==> isRecord(record)
    ensures RECORD in Envelope(record, sha).fields && Envelope(record, sha).fields[RECORD] == record
    ensures RECORD_SHA256 in Envelope(record, sha).fields
            && Envelope(record, sha).fields[RECORD_SHA256] == Str(sha(Print(Core(record))))
  {
    KeysDiffer();
    ThreeKeys(SCHEMA_VERSION, RECORD, RECORD_SHA256, Num(2), record, Str(sha(Print(Core(record)))));
  }

  lemma ShapeIsEnvelope(v: Json, sha: Text -> Text, isRecord: Json -> bool)
    requires EnvelopeShape(v, isRecord) && v.fields[RECORD_SHA256] == Str(sha(Print(Core(v.fields[RECORD]))))
    ensures v == Envelope(v.fields[RECORD], sha)
  {
    KeysDiffer();
    ThreeFields(v.fields, SCHEMA_VERSION, RECORD, RECORD_SHA256);
  }

  /**
   The entries that are accepted for a record are exactly one: the one that is written for it. In particular,
   reading an entry back yields the record that was written.
   */
  lemma EnvelopeRoundTrip(text: Text, record: Json, sha: Text -> Text, isRecord: Json -> bool)
    ensures ParseEnvelope(text, sha, isRecord) == Some(record) <==> isRecord(record) && text == Print(Envelope(record, sha))
  {
    ParseOfPrint(Envelope(record, sha));
    EnvelopeHasShape(record, sha, isRecord);
    if ParseEnvelope(text, sha, isRecord) == Some(record) {
      ShapeIsEnvelope(Parse(text).value, sha, isRecord);
    }
  }
}
