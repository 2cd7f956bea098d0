/**
 What the patch printer prints, as a function of the script and its hunks
 (src/git/gitReads.ts:861-964), and why the reader of PatchFormat gets the new text back.
 */
module PatchLayout {
  import opened Wrappers
  import opened EditScripts
  import opened TextLines
  import opened Decimals
  import opened PatchFormat
  import opened SeqFacts

  // ----- Tagged lines -----

  const NL_TAG := "\0NL"
  const EOF_TAG := "\0EOF"

  /** The lines that are compared: the last one is tagged with how it ends (src/git/gitReads.ts:869-884). */
  function Tagged(s: Split): (r: seq<string>)
    ensures |r| == |s.lines|
  {
    seq(|s.lines|, i requires 0 <= i < |s.lines| =>
      s.lines[i] + (if i < |s.lines| - 1 then "" else if s.finalNewline then NL_TAG else EOF_TAG))
  }

  function LastIndexOf(s: string, c: char): (r: int)
    ensures -1 <= r < |s| && (0 <= r ==> s[r] == c)
    ensures forall i | r < i < |s| :: s[i] != c
  {
    if s == [] then -1 else if s[|s| - 1] == c then |s| - 1 else LastIndexOf(s[..|s| - 1], c)
  }

  /** The line without its tag (src/git/gitReads.ts:889-893). */
  function Strip(line: string): string {
    var marker := LastIndexOf(line, '\0');
    if marker >= 0 then line[..marker] else line
  }

  /** The line is the last one of a text that does not end with a newline. */
  predicate Unterminated(line: string) {
    4 <= |line| && line[|line| - 4..] == EOF_TAG
  }

  /** The part of a text that a tagged line stands for. */
  function RecordOf(line: string): string {
    Strip(line) + (if Unterminated(line) then "" else "\n")
  }

  lemma StripTag(line: string, tag: string)
    requires Free(line, '\0') && (tag == "" || tag == NL_TAG || tag == EOF_TAG)
    ensures Strip(line + tag) == line
    ensures Unterminated(line + tag) <==> tag == EOF_TAG
  {
    var s := line + tag;
    if tag == "" {
      assert s == line;
      assert 4 <= |s| ==> s[|s| - 4..][0] in line;
    } else {
      assert s[|line|] == '\0';
      assert forall i | |line| < i < |s| :: s[i] == tag[i - |line|] != '\0';
      assert LastIndexOf(s, '\0') == |line|;
      assert s[..|line|] == line;
      if tag == NL_TAG {
        assert 4 <= |s| ==> s[|s| - 4..][3] == 'L';
      } else {
        assert s[|s| - 4..] == tag;
      }
    }
  }

  // ----- Scripts under a map of their lines -----

  function MapLines(f: string -> string, lines: seq<string>): (r: seq<string>)
    ensures |r| == |lines| && forall i | 0 <= i < |r| :: r[i] == f(lines[i])
  {
    seq(|lines|, i requires 0 <= i < |lines| => f(lines[i]))
  }

  function MapEdit(f: string -> string, e: Edit): Edit {
    match e
    case Equal(line) => Equal(f(line))
    case Delete(line) => Delete(f(line))
    case Insert(line) => Insert(f(line))
  }

  function MapEdits(f: string -> string, es: seq<Edit>): (r: seq<Edit>)
    ensures |r| == |es| && forall i | 0 <= i < |r| :: r[i] == MapEdit(f, es[i])
  {
    seq(|es|, i requires 0 <= i < |es| => MapEdit(f, es[i]))
  }

  lemma MapLinesSnoc(f: string -> string, lines: seq<string>, line: string)
    ensures MapLines(f, lines + [line]) == MapLines(f, lines) + [f(line)]
  {
  }

  lemma {:induction false} SidesOfMap(f: string -> string, es: seq<Edit>)
    ensures OldSide(MapEdits(f, es)) == MapLines(f, OldSide(es))
    ensures NewSide(MapEdits(f, es)) == MapLines(f, NewSide(es))
  {
    if es != [] {
      var front, e := es[..|es| - 1], es[|es| - 1];
      SidesOfMap(f, front);
      assert MapEdits(f, es) == MapEdits(f, front) + [MapEdit(f, e)];
      SidesOfSnoc(MapEdits(f, front), MapEdit(f, e));
      SidesOfSnoc(front, e);
      assert es == front + [e];
      MapLinesSnoc(f, OldSide(front), e.line);
      MapLinesSnoc(f, NewSide(front), e.line);
    }
  }

  /** The records of a text are what its tagged lines stand for. */
  lemma RecordsOfTagged(text: string)
    requires Free(text, '\0')
    ensures MapLines(RecordOf, Tagged(SplitLines(text))) == Records(SplitLines(text))
  {
    var s := SplitLines(text);
    PiecesClean(text, '\0');
    forall i | 0 <= i < |s.lines| ensures RecordOf(Tagged(s)[i]) == Records(s)[i] {
      StripTag(s.lines[i], if i < |s.lines| - 1 then "" else if s.finalNewline then NL_TAG else EOF_TAG);
    }
  }

  /** Texts are equal when their tagged lines are. */
  lemma TaggedInjective(oldText: string, newText: string)
    requires Free(oldText, '\0') && Free(newText, '\0')
    ensures Tagged(SplitLines(oldText)) == Tagged(SplitLines(newText)) <==> oldText == newText
  {
    RecordsOfTagged(oldText);
    RecordsOfTagged(newText);
    RecordsJoin(oldText);
    RecordsJoin(newText);
  }

  // ----- Printing -----

  function Sign(e: Edit): char {
    match e
    case Equal(_) => ' '
    case Delete(_) => '-'
    case Insert(_) => '+'
  }

  /** The patch lines of one edit (src/git/gitReads.ts:943-955). */
  function EditLines(e: Edit): seq<string> {
    [[Sign(e)] + Strip(e.line)] + (if Unterminated(e.line) then [NO_NEWLINE] else [])
  }

  function BodyLines(es: seq<Edit>): seq<string> {
    if es == [] then [] else EditLines(es[0]) + BodyLines(es[1..])
  }

  /** The edits of a hunk: from the first index up to and including the second. */
  type Group = (nat, nat)

  predicate ValidGroup(es: seq<Edit>, g: Group) {
    g.0 <= g.1 < |es|
  }

  function GroupEdits(es: seq<Edit>, g: Group): seq<Edit>
    requires ValidGroup(es, g)
  {
    es[g.0..g.1 + 1]
  }

  /** The hunk that a group of edits stands for. */
  function HunkOf(es: seq<Edit>, g: Group): Hunk
    requires ValidGroup(es, g)
  {
    var body := GroupEdits(es, g);
    Hunk(|OldSide(es[..g.0])| + 1, |OldSide(body)|, |NewSide(es[..g.0])| + 1, |NewSide(body)|, MapEdits(RecordOf, body))
  }

  /** The header of a hunk (src/git/gitReads.ts:935). */
  function HeaderText(oldStart: nat, oldCount: nat, newStart: nat, newCount: nat): string {
    "@@ -" + Decimal(oldStart) + "," + Decimal(oldCount) + " +" + Decimal(newStart) + "," + Decimal(newCount) + " @@"
  }

  function HeaderLine(h: Hunk): string {
    HeaderText(h.oldStart, h.oldCount, h.newStart, h.newCount)
  }

  function HunkLines(es: seq<Edit>, g: Group): seq<string>
    requires ValidGroup(es, g)
  {
    [HeaderLine(HunkOf(es, g))] + BodyLines(GroupEdits(es, g))
  }

  function PatchLines(es: seq<Edit>, groups: seq<Group>): seq<string>
    requires forall i | 0 <= i < |groups| :: ValidGroup(es, groups[i])
  {
    if groups == [] then [] else HunkLines(es, groups[0]) + PatchLines(es, groups[1..])
  }

  function FileLines(path: string): seq<string> {
    ["--- a/" + path, "+++ b/" + path]
  }

  lemma {:induction false} BodyLinesSnoc(es: seq<Edit>, e: Edit)
    ensures BodyLines(es + [e]) == BodyLines(es) + EditLines(e)
  {
    if es == [] {
      assert ([] + [e])[1..] == [];
    } else {
      assert (es + [e])[1..] == es[1..] + [e];
      BodyLinesSnoc(es[1..], e);
    }
  }

  lemma {:induction false} PatchLinesSnoc(es: seq<Edit>, groups: seq<Group>, g: Group)
    requires ValidGroup(es, g) && forall i | 0 <= i < |groups| :: ValidGroup(es, groups[i])
    ensures PatchLines(es, groups + [g]) == PatchLines(es, groups) + HunkLines(es, g)
  {
    if groups == [] {
      assert ([] + [g])[1..] == [];
    } else {
      assert (groups + [g])[1..] == groups[1..] + [g];
      PatchLinesSnoc(es, groups[1..], g);
    }
  }

  // ----- Reading back what was printed -----

  lemma ParseFieldOf(beginning: string, n: nat, rest: string)
    requires rest == [] || !IsDigit(rest[0])
    ensures ParseField(beginning + Decimal(n) + rest, beginning) == Some((n, rest))
  {
    var text := beginning + Decimal(n) + rest;
    assert text == beginning + (Decimal(n) + rest);
    assert text[|beginning|..] == Decimal(n) + rest;
    ParseNatOfDecimal(n, rest);
  }

  lemma HeaderParts(h: Hunk, r1: string, r2: string, r3: string)
    requires r3 == "," + Decimal(h.newCount) + " @@" && r2 == " +" + Decimal(h.newStart) + r3
    requires r1 == "," + Decimal(h.oldCount) + r2
    ensures HeaderLine(h) == "@@ -" + Decimal(h.oldStart) + r1
  {
  }

  lemma ParseHeaderOf(h: Hunk)
    ensures ParseHeader(HeaderLine(h)) == Some((h.oldStart, h.oldCount, h.newStart, h.newCount))
  {
    var r3 := "," + Decimal(h.newCount) + " @@";
    var r2 := " +" + Decimal(h.newStart) + r3;
    var r1 := "," + Decimal(h.oldCount) + r2;
    HeaderParts(h, r1, r2, r3);
    ParseFieldOf("@@ -", h.oldStart, r1);
    ParseFieldOf(",", h.oldCount, r2);
    ParseFieldOf(" +", h.newStart, r3);
    ParseFieldOf(",", h.newCount, " @@");
  }

  lemma FirstEdit(es: seq<Edit>)
    requires es != []
    ensures |OldSide(es)| == |OldSide(es[1..])| + (if es[0].Insert? then 0 else 1)
    ensures |NewSide(es)| == |NewSide(es[1..])| + (if es[0].Delete? then 0 else 1)
  {
    assert es == [es[0]] + es[1..];
    SidesOfOne(es[0]);
    SidesOfAppend([es[0]], es[1..]);
  }

  /** A patch line that does not start with a backslash is no marker. */
  lemma EditLineIsNoMarker(e: Edit)
    ensures EditLines(e)[0][0] == Sign(e) && EditLines(e)[0][1..] == Strip(e.line) && EditLines(e)[0] != NO_NEWLINE
  {
    assert NO_NEWLINE[0] == '\\';
  }

  lemma ParseEditOf(e: Edit)
    ensures ParseEdit(EditLines(e)[0], Unterminated(e.line)) == Some(MapEdit(RecordOf, e))
  {
    EditLineIsNoMarker(e);
  }

  lemma ParseBodyStep(e: Edit, lines: seq<string>, rest: seq<string>, oldCount: nat, newCount: nat)
    requires lines == EditLines(e) + rest && (rest == [] || rest[0] != NO_NEWLINE)
    requires !e.Insert? ==> 0 < oldCount
    requires !e.Delete? ==> 0 < newCount
    ensures ParseBody(lines, oldCount, newCount)
         == match ParseBody(rest, if e.Insert? then oldCount else oldCount - 1, if e.Delete? then newCount else newCount - 1)
            case None => None
            case Some(r) => Some(([MapEdit(RecordOf, e)] + r.0, r.1))
  {
    EditLineIsNoMarker(e);
    ParseEditOf(e);
    assert lines[0] == EditLines(e)[0];
    assert lines[|EditLines(e)|..] == rest;
    assert (1 < |lines| && lines[1] == NO_NEWLINE) == Unterminated(e.line);
  }

  lemma BodyLinesFirst(es: seq<Edit>, tail: seq<string>)
    requires es != []
    ensures BodyLines(es) + tail == EditLines(es[0]) + (BodyLines(es[1..]) + tail)
  {
    Associative(EditLines(es[0]), BodyLines(es[1..]), tail);
  }

  lemma MapEditsFirst(f: string -> string, es: seq<Edit>)
    requires es != []
    ensures MapEdits(f, es) == [MapEdit(f, es[0])] + MapEdits(f, es[1..])
  {
  }

  /** The counts of a header are exactly what it takes to read the body back. */
  lemma {:induction false} ParseBodyOf(es: seq<Edit>, lines: seq<string>, tail: seq<string>, oldCount: nat, newCount: nat)
    requires lines == BodyLines(es) + tail && (tail == [] || tail[0] != NO_NEWLINE)
    requires oldCount == |OldSide(es)| && newCount == |NewSide(es)|
    ensures lines == [] || lines[0] != NO_NEWLINE
    ensures ParseBody(lines, oldCount, newCount) == Some((MapEdits(RecordOf, es), tail))
    decreases |es|
  {
    if es == [] {
      assert lines == tail;
    } else {
      var e := es[0];
      var rest := BodyLines(es[1..]) + tail;
      FirstEdit(es);
      ParseBodyOf(es[1..], rest, tail, if e.Insert? then oldCount else oldCount - 1, if e.Delete? then newCount else newCount - 1);
      EditLineIsNoMarker(e);
      BodyLinesFirst(es, tail);
      MapEditsFirst(RecordOf, es);
      ParseBodyStep(e, lines, rest, oldCount, newCount);
    }
  }

  function HunksOf(es: seq<Edit>, groups: seq<Group>): (r: seq<Hunk>)
    requires forall i | 0 <= i < |groups| :: ValidGroup(es, groups[i])
    ensures |r| == |groups|
  {
    if groups == [] then [] else [HunkOf(es, groups[0])] + HunksOf(es, groups[1..])
  }

  lemma ParseHunksStep(lines: seq<string>, h: Hunk, tail: seq<string>)
    requires lines != [] && ParseHeader(lines[0]) == Some((h.oldStart, h.oldCount, h.newStart, h.newCount))
    requires ParseBody(lines[1..], h.oldCount, h.newCount) == Some((h.body, tail))
    ensures ParseHunks(lines)
         == match ParseHunks(tail)
            case None => None
            case Some(rest) => Some([h] + rest)
  {
  }

  lemma HeaderIsNoMarker(h: Hunk)
    ensures HeaderLine(h) != NO_NEWLINE
  {
    assert HeaderLine(h)[0] == '@' && NO_NEWLINE[0] == '\\';
  }

  lemma HunkLinesRead(es: seq<Edit>, g: Group, lines: seq<string>, h: Hunk, tail: seq<string>)
    requires ValidGroup(es, g) && h == HunkOf(es, g) && (tail == [] || tail[0] != NO_NEWLINE)
    requires lines == HunkLines(es, g) + tail
    ensures lines != [] && lines[0] != NO_NEWLINE
    ensures ParseHeader(lines[0]) == Some((h.oldStart, h.oldCount, h.newStart, h.newCount))
    ensures ParseBody(lines[1..], h.oldCount, h.newCount) == Some((h.body, tail))
  {
    var body, rest := GroupEdits(es, g), lines[1..];
    ConsParts(HeaderLine(h), BodyLines(body), tail);
    ParseHeaderOf(h);
    HeaderIsNoMarker(h);
    ParseBodyOf(body, rest, tail, h.oldCount, h.newCount);
  }

  lemma {:induction false} ParseHunksOf(es: seq<Edit>, groups: seq<Group>)
    requires forall i | 0 <= i < |groups| :: ValidGroup(es, groups[i])
    ensures PatchLines(es, groups) == [] || PatchLines(es, groups)[0] != NO_NEWLINE
    ensures ParseHunks(PatchLines(es, groups)) == Some(HunksOf(es, groups))
  {
    if groups != [] {
      ParseHunksOf(es, groups[1..]);
      var lines, tail := PatchLines(es, groups), PatchLines(es, groups[1..]);
      HunkLinesRead(es, groups[0], lines, HunkOf(es, groups[0]), tail);
      ParseHunksStep(lines, HunkOf(es, groups[0]), tail);
    }
  }
}
