/** The canonical unified patch of two texts (src/git/gitReads.ts:861-964). */
module UnifiedPatch {
  import opened Wrappers
  import opened GitWork
  import opened EditScripts
  import opened TextLines
  import opened Decimals
  import opened PatchFormat
  import opened PatchLayout
  import opened PatchHunks
  import opened SeqFacts
  import Myers

  // ----- What is printed can be read back -----

  lemma FreeOfAppend(s: string, t: string, c: char)
    requires Free(s, c) && Free(t, c)
    ensures Free(s + t, c)
  {
  }

  lemma DecimalFree(n: nat)
    ensures Free(Decimal(n), '\n')
  {
    assert forall i | 0 <= i < |Decimal(n)| :: IsDigit(Decimal(n)[i]);
  }

  lemma HeaderFree(h: Hunk)
    ensures Free(HeaderLine(h), '\n')
  {
    DecimalFree(h.oldStart);
    DecimalFree(h.oldCount);
    DecimalFree(h.newStart);
    DecimalFree(h.newCount);
  }

  /** The lines of an edit script between tagged texts contain no newline once stripped. */
  ghost predicate CleanLines(es: seq<Edit>) {
    forall i | 0 <= i < |es| :: Free(Strip(es[i].line), '\n')
  }

  lemma TaggedClean(text: string)
    requires Free(text, '\0')
    ensures forall i | 0 <= i < |Tagged(SplitLines(text))| :: Free(Strip(Tagged(SplitLines(text))[i]), '\n')
  {
    var s := SplitLines(text);
    PiecesClean(text, '\0');
    PiecesClean(text, '\n');
    forall i | 0 <= i < |s.lines| ensures Free(Strip(Tagged(s)[i]), '\n') {
      StripTag(s.lines[i], if i < |s.lines| - 1 then "" else if s.finalNewline then NL_TAG else EOF_TAG);
    }
  }

  lemma ScriptClean(es: seq<Edit>, oldText: string, newText: string)
    requires Free(oldText, '\0') && Free(newText, '\0')
    requires Turns(es, Tagged(SplitLines(oldText)), Tagged(SplitLines(newText)))
    ensures CleanLines(es)
  {
    TaggedClean(oldText);
    TaggedClean(newText);
    forall i | 0 <= i < |es| ensures Free(Strip(es[i].line), '\n') {
      LineOfSide(es, i);
    }
  }

  predicate AllFree(lines: seq<string>) {
    forall i | 0 <= i < |lines| :: Free(lines[i], '\n')
  }

  lemma {:induction false} BodyFree(es: seq<Edit>)
    requires CleanLines(es)
    ensures AllFree(BodyLines(es))
  {
    if es != [] {
      BodyFree(es[1..]);
      assert Free([Sign(es[0])] + Strip(es[0].line), '\n');
      assert Free(NO_NEWLINE, '\n');
      assert AllFree(EditLines(es[0]));
    }
  }

  lemma {:induction false} PatchFree(es: seq<Edit>, groups: seq<Group>)
    requires CleanLines(es) && forall i | 0 <= i < |groups| :: ValidGroup(es, groups[i])
    ensures AllFree(PatchLines(es, groups))
  {
    if groups != [] {
      PatchFree(es, groups[1..]);
      HeaderFree(HunkOf(es, groups[0]));
      BodyFree(GroupEdits(es, groups[0]));
    }
  }

  /** Parsing the printed text gives the hunks of the script. */
  lemma ParsePrinted(es: seq<Edit>, groups: seq<Group>, path: string)
    requires CleanLines(es) && Free(path, '\n') && forall i | 0 <= i < |groups| :: ValidGroup(es, groups[i])
    ensures Parse(Terminated(FileLines(path) + PatchLines(es, groups))) == Some(HunksOf(es, groups))
  {
    var lines := FileLines(path) + PatchLines(es, groups);
    PatchFree(es, groups);
    FreeOfAppend("--- a/", path, '\n');
    FreeOfAppend("+++ b/", path, '\n');
    SplitOfTerminated(lines);
    TerminatedEnds(lines);
    ParseHunksOf(es, groups);
    assert lines[0] == "--- a/" + path && lines[0][6..] == path;
    assert lines[1] == "+++ b/" + path && lines[1][6..] == path;
    assert lines[2..] == PatchLines(es, groups);
  }

  lemma {:induction false} HunksDescribe(es: seq<Edit>, groups: seq<Group>)
    requires forall i | 0 <= i < |groups| :: ValidGroup(es, groups[i])
    ensures DescribeAll(HunksOf(es, groups), MapEdits(RecordOf, es), groups)
  {
    if groups != [] {
      HunkDescribes(es, groups[0]);
      HunksDescribe(es, groups[1..]);
    }
  }

  lemma {:induction false} RemainingOfMap(f: string -> string, es: seq<Edit>, groups: seq<Group>, c: nat)
    requires Remaining(es, groups, c)
    ensures Remaining(MapEdits(f, es), groups, c)
    decreases |groups|
  {
    if groups != [] {
      RemainingOfMap(f, es, groups[1..], groups[0].1 + 1);
    }
  }

  /** Applying the printed hunks to the old records gives the new records. */
  lemma ApplyPrinted(es: seq<Edit>, groups: seq<Group>, oldText: string, newText: string)
    requires Free(oldText, '\0') && Free(newText, '\0') && Geometry(es, groups)
    requires Turns(es, Tagged(SplitLines(oldText)), Tagged(SplitLines(newText)))
    ensures Yields(Records(SplitLines(oldText)), HunksOf(es, groups), 0, 0, Records(SplitLines(newText)))
  {
    var fs := MapEdits(RecordOf, es);
    SidesOfMap(RecordOf, es);
    RecordsOfTagged(oldText);
    RecordsOfTagged(newText);
    GeometryRemaining(es, groups, 0, 0);
    assert groups[0..] == groups;
    RemainingOfMap(RecordOf, es, groups, 0);
    HunksDescribe(es, groups);
    assert fs[0..] == fs;
    ApplyHunks(fs, Records(SplitLines(oldText)), groups, HunksOf(es, groups), 0, 0, 0, Records(SplitLines(newText)));
  }

  /** The printed patch, parsed and applied to the old text, gives exactly the new text. */
  lemma RoundTrip(es: seq<Edit>, groups: seq<Group>, path: string, oldText: string, newText: string)
    requires Free(oldText, '\0') && Free(newText, '\0') && Free(path, '\n')
    requires Turns(es, Tagged(SplitLines(oldText)), Tagged(SplitLines(newText))) && Geometry(es, groups)
    ensures ApplyPatch(Terminated(FileLines(path) + PatchLines(es, groups)), oldText) == Some(newText)
  {
    ScriptClean(es, oldText, newText);
    ParsePrinted(es, groups, path);
    ApplyPrinted(es, groups, oldText, newText);
    RecordsJoin(newText);
  }

  // ----- The printer -----

  /** UTF-8 bytes of a text. */
  function ByteLength(text: string): nat {
    if text == [] then 0
    else
      var c := text[|text| - 1] as int;
      ByteLength(text[..|text| - 1]) + (if c < 0x80 then 1 else if c < 0x800 then 2 else if c < 0x1_0000 then 3 else 4)
  }

  ghost predicate Exhausted(error: GitError, work: Meter)
    reads work
  {
    error == WorkLimitExceeded && work.value > GIT_MAX_DIFF_WORK
  }

  /** The lines to compare (src/git/gitReads.ts:869-884). */
  method Comparable(s: Split, work: Meter) returns (r: Result<seq<string>, GitError>)
    modifies work
    ensures r.Success? ==> r.value == Tagged(s)
    ensures r.Failure? ==> Exhausted(r.error, work)
  {
    var output: seq<string> := [];
    for index := 0 to |s.lines|
      invariant output == Tagged(s)[..index]
    {
      :- work.Charge();
      var line := s.lines[index];
      assert line + "" == line;
      TakeNext(Tagged(s), index);
      output := output + [if index == |s.lines| - 1 then line + (if s.finalNewline then NL_TAG else EOF_TAG) else line];
    }
    return Success(output);
  }

  /** Removes the tags again and looks for a change (src/git/gitReads.ts:886-896). */
  method StripEdits(raw: seq<Edit>, work: Meter) returns (r: Result<(seq<Edit>, bool), GitError>)
    modifies work
    ensures r.Success? ==> r.value.0 == MapEdits(Strip, raw)
    ensures r.Success? ==> (r.value.1 <==> exists j :: Changed(raw, j))
    ensures r.Failure? ==> Exhausted(r.error, work)
  {
    var edits: seq<Edit> := [];
    var hasChange := false;
    for index := 0 to |raw|
      invariant edits == MapEdits(Strip, raw)[..index]
      invariant hasChange <==> exists j :: Changed(raw, j) && j < index
    {
      :- work.Charge();
      TakeNext(MapEdits(Strip, raw), index);
      edits := edits + [MapEdit(Strip, raw[index])];
      if !raw[index].Equal? {
        assert Changed(raw, index);
        hasChange := true;
      }
    }
    return Success((edits, hasChange));
  }

  ghost predicate Listed(changed: seq<nat>, j: int) {
    exists p :: 0 <= p < |changed| && changed[p] == j
  }

  /** The list holds the indices of the changes below bound, in order. */
  ghost predicate ChangesBelow(es: seq<Edit>, changed: seq<nat>, bound: nat) {
    && (forall p | 0 <= p < |changed| :: Changed(es, changed[p]) && changed[p] < bound)
    && (forall p, q | 0 <= p < q < |changed| :: changed[p] < changed[q])
    && (forall j {:trigger Listed(changed, j)} | 0 <= j < bound && Changed(es, j) :: Listed(changed, j))
  }

  lemma ChangeListed(es: seq<Edit>, changed: seq<nat>, index: nat)
    requires ChangesBelow(es, changed, index) && Changed(es, index)
    ensures ChangesBelow(es, changed + [index], index + 1)
  {
    var longer := changed + [index];
    forall j | 0 <= j < index + 1 && Changed(es, j) ensures Listed(longer, j) {
      if j == index {
        assert longer[|changed|] == j;
      } else {
        assert Listed(changed, j);
        var p :| 0 <= p < |changed| && changed[p] == j;
        assert longer[p] == j;
      }
    }
  }

  /** Lists the changes (src/git/gitReads.ts:898-902). */
  method ListChanges(edits: seq<Edit>, work: Meter) returns (r: Result<seq<nat>, GitError>)
    modifies work
    ensures r.Success? ==> ChangesBelow(edits, r.value, |edits|)
    ensures r.Failure? ==> Exhausted(r.error, work)
  {
    var changed: seq<nat> := [];
    for index := 0 to |edits|
      invariant ChangesBelow(edits, changed, index)
    {
      :- work.Charge();
      if !edits[index].Equal? {
        ChangeListed(edits, changed, index);
        changed := changed + [index];
      }
    }
    return Success(changed);
  }

  lemma CoveredMore(es: seq<Edit>, runs: seq<Run>, more: seq<Run>, bound: nat, index: nat)
    requires forall j {:trigger Covered(runs, j)} | 0 <= j < bound && Changed(es, j) :: Covered(runs, j)
    requires |runs| <= |more| && forall i | 0 <= i < |runs| :: more[i].0 == runs[i].0 && runs[i].1 <= more[i].1
    requires forall j | bound <= j < index :: !Changed(es, j)
    requires 0 < |more| && Inside(more[|more| - 1], index)
    ensures forall j {:trigger Covered(more, j)} | 0 <= j < index + 1 && Changed(es, j) :: Covered(more, j)
  {
    forall j | 0 <= j < index + 1 && Changed(es, j) ensures Covered(more, j) {
      if j == index {
        assert Inside(more[|more| - 1], j);
      } else {
        assert Covered(runs, j);
        var i :| 0 <= i < |runs| && Inside(runs[i], j);
        assert Inside(more[i], j);
      }
    }
  }

  /** Opening a group keeps the grouping (src/git/gitReads.ts:907-911). */
  lemma GroupOpened(es: seq<Edit>, groups: seq<Group>, runs: seq<Run>, bound: nat, index: nat)
    requires Grouped(es, groups, runs, bound) && bound <= index && Changed(es, index)
    requires forall j | bound <= j < index :: !Changed(es, j)
    requires groups != [] ==> groups[|groups| - 1].1 + 6 < index
    ensures Grouped(es, groups + [WithContext((index, index), |es|)], runs + [(index, index)], index + 1)
  {
    var more := runs + [(index, index)];
    CoveredMore(es, runs, more, bound, index);
    assert runs != [] ==> runs[|runs| - 1].1 + 9 < index;
    assert forall i | 0 <= i < |runs| - 1 :: runs[i].1 + 9 < runs[|runs| - 1].0 <= runs[|runs| - 1].1;
  }

  lemma OpenedTight(es: seq<Edit>, runs: seq<Run>, index: nat)
    requires Tight(es, runs)
    ensures Tight(es, runs + [(index, index)])
  {
    var more := runs + [(index, index)];
    forall i, j | 0 <= i < |more| && more[i].0 <= j < more[i].1 ensures ChangeFollows(es, j, more[i].1) {
      assert ChangeFollows(es, j, runs[i].1);
    }
  }

  /** Extending the last group keeps the grouping (src/git/gitReads.ts:912). */
  lemma GroupExtended(es: seq<Edit>, groups: seq<Group>, runs: seq<Run>, bound: nat, index: nat, last: nat, run: Run)
    requires Grouped(es, groups, runs, bound) && bound <= index && Changed(es, index)
    requires forall j | bound <= j < index :: !Changed(es, j)
    requires last == |groups| - 1 && index <= groups[last].1 + 6 && run == (runs[last].0, index)
    ensures Grouped(es, groups[last := WithContext(run, |es|)], runs[last := run], index + 1)
  {
    CoveredMore(es, runs, runs[last := run], bound, index);
  }

  lemma ExtendedTight(es: seq<Edit>, runs: seq<Run>, index: nat, last: nat)
    requires Tight(es, runs) && last == |runs| - 1 && runs[last].1 < index <= runs[last].1 + 9 && Changed(es, index)
    ensures Tight(es, runs[last := (runs[last].0, index)])
  {
    var more := runs[last := (runs[last].0, index)];
    forall i, j | 0 <= i < |more| && more[i].0 <= j < more[i].1 ensures ChangeFollows(es, j, more[i].1) {
      if i == last && runs[last].1 <= j {
        assert Changed(es, index);
      } else {
        assert ChangeFollows(es, j, runs[i].1);
      }
    }
  }

  /** The state of the grouping after the changes below bound; the last run ends with the last change. */
  ghost predicate GroupedSoFar(es: seq<Edit>, groups: seq<Group>, runs: seq<Run>, bound: nat) {
    && Grouped(es, groups, runs, bound) && Tight(es, runs)
    && (groups == [] <==> bound == 0)
    && (runs != [] ==> runs[|runs| - 1].1 == bound - 1)
  }

  lemma SoFarOpened(es: seq<Edit>, groups: seq<Group>, runs: seq<Run>, bound: nat, index: nat)
    requires GroupedSoFar(es, groups, runs, bound) && bound <= index && Changed(es, index)
    requires forall j | bound <= j < index :: !Changed(es, j)
    requires groups != [] ==> groups[|groups| - 1].1 + 6 < index
    ensures GroupedSoFar(es, groups + [WithContext((index, index), |es|)], runs + [(index, index)], index + 1)
  {
    GroupOpened(es, groups, runs, bound, index);
    OpenedTight(es, runs, index);
  }

  lemma SoFarExtended(es: seq<Edit>, groups: seq<Group>, runs: seq<Run>, bound: nat, index: nat)
    requires GroupedSoFar(es, groups, runs, bound) && bound <= index && Changed(es, index)
    requires forall j | bound <= j < index :: !Changed(es, j)
    requires groups != [] && index <= groups[|groups| - 1].1 + 6
    ensures var last := |groups| - 1; var end := if |es| - 1 < index + 3 then |es| - 1 else index + 3;
            GroupedSoFar(es, groups[last := (groups[last].0, end)], runs[last := (runs[last].0, index)], index + 1)
  {
    var last := |groups| - 1;
    GroupExtended(es, groups, runs, bound, index, last, (runs[last].0, index));
    ExtendedTight(es, runs, index, last);
  }

  /** Groups the changes into hunks (src/git/gitReads.ts:903-913). */
  method GroupChanges(edits: seq<Edit>, changed: seq<nat>, work: Meter)
    returns (r: Result<seq<Group>, GitError>, ghost runs: seq<Run>)
    requires ChangesBelow(edits, changed, |edits|)
    modifies work
    ensures r.Success? ==> Grouped(edits, r.value, runs, |edits|) && Tight(edits, runs)
    ensures r.Success? ==> (r.value == [] <==> changed == [])
    ensures r.Failure? ==> Exhausted(r.error, work)
  {
    var groups: seq<Group> := [];
    runs := [];
    ghost var bound := 0;
    for position := 0 to |changed|
      invariant bound == if position == 0 then 0 else changed[position - 1] + 1
      invariant GroupedSoFar(edits, groups, runs, bound)
    {
      var o := work.Charge();
      if o.Fail? {
        return Failure(o.error), runs;
      }
      var index := changed[position];
      NoChangeBetween(edits, changed, position, bound);
      var start: nat := if index < 3 then 0 else index - 3;
      var end: nat := if |edits| - 1 < index + 3 then |edits| - 1 else index + 3;
      if |groups| == 0 || index > groups[|groups| - 1].1 + 6 {
        SoFarOpened(edits, groups, runs, bound, index);
        groups := groups + [(start, end)];
        runs := runs + [(index, index)];
      } else {
        SoFarExtended(edits, groups, runs, bound, index);
        groups := groups[|groups| - 1 := (groups[|groups| - 1].0, end)];
        runs := runs[|runs| - 1 := (runs[|runs| - 1].0, index)];
      }
      bound := index + 1;
    }
    GroupedToEnd(edits, changed, groups, runs, bound);
    return Success(groups), runs;
  }

  lemma PositionOf(es: seq<Edit>, changed: seq<nat>, j: nat) returns (p: nat)
    requires ChangesBelow(es, changed, |es|) && Changed(es, j)
    ensures p < |changed| && changed[p] == j
  {
    assert Listed(changed, j);
    p :| 0 <= p < |changed| && changed[p] == j;
  }

  lemma NoChangeBetween(es: seq<Edit>, changed: seq<nat>, position: nat, bound: nat)
    requires ChangesBelow(es, changed, |es|) && position < |changed|
    requires bound == if position == 0 then 0 else changed[position - 1] + 1
    ensures bound <= changed[position] && forall j | bound <= j < changed[position] :: !Changed(es, j)
  {
    forall j | bound <= j < changed[position] ensures !Changed(es, j) {
      if Changed(es, j) {
        var p := PositionOf(es, changed, j);
      }
    }
  }

  lemma GroupedToEnd(es: seq<Edit>, changed: seq<nat>, groups: seq<Group>, runs: seq<Run>, bound: nat)
    requires ChangesBelow(es, changed, |es|) && Grouped(es, groups, runs, bound)
    requires bound == if changed == [] then 0 else changed[|changed| - 1] + 1
    ensures Grouped(es, groups, runs, |es|)
  {
    forall j | bound <= j < |es| ensures !Changed(es, j) {
      if Changed(es, j) {
        var p := PositionOf(es, changed, j);
      }
    }
    assert forall j | 0 <= j < |es| && Changed(es, j) :: j < bound;
  }

  /** Counts the old and the new lines of a stretch of edits (src/git/gitReads.ts:927-934). */
  method CountSides(edits: seq<Edit>, from: nat, to: nat, work: Meter) returns (r: Result<(nat, nat), GitError>)
    requires from <= to <= |edits|
    modifies work
    ensures r.Success? ==> r.value == (|OldSide(edits[from..to])|, |NewSide(edits[from..to])|)
    ensures r.Failure? ==> Exhausted(r.error, work)
  {
    var oldCount: nat, newCount: nat := 0, 0;
    var cursor := from;
    while cursor < to
      invariant from <= cursor <= to
      invariant oldCount == |OldSide(edits[from..cursor])| && newCount == |NewSide(edits[from..cursor])|
    {
      :- work.Charge();
      assert edits[from..cursor + 1] == edits[from..cursor] + [edits[cursor]];
      SidesOfSnoc(edits[from..cursor], edits[cursor]);
      if !edits[cursor].Insert? {
        oldCount := oldCount + 1;
      }
      if !edits[cursor].Delete? {
        newCount := newCount + 1;
      }
      cursor := cursor + 1;
    }
    return Success((oldCount, newCount));
  }

  /** The script between the tagged lines of two texts. */
  ghost predicate Between(raw: seq<Edit>, oldLines: Split, newLines: Split) {
    && Turns(raw, Tagged(oldLines), Tagged(newLines))
    && (forall i | 0 <= i < |oldLines.lines| :: Free(oldLines.lines[i], '\0'))
    && (forall i | 0 <= i < |newLines.lines| :: Free(newLines.lines[i], '\0'))
  }

  lemma TaggedUnterminated(s: Split, i: nat)
    requires i < |s.lines| && Free(s.lines[i], '\0')
    ensures Unterminated(Tagged(s)[i]) <==> i == |s.lines| - 1 && !s.finalNewline
  {
    StripTag(s.lines[i], if i < |s.lines| - 1 then "" else if s.finalNewline then NL_TAG else EOF_TAG);
  }

  /** The counters decide correctly which lines have no newline (src/git/gitReads.ts:947-955). */
  lemma MissingNewline(raw: seq<Edit>, oldLines: Split, newLines: Split, i: nat, oldLine: nat, newLine: nat)
    requires Between(raw, oldLines, newLines) && i < |raw|
    requires oldLine == |OldSide(raw[..i])| + (if raw[i].Insert? then 0 else 1)
    requires newLine == |NewSide(raw[..i])| + (if raw[i].Delete? then 0 else 1)
    ensures Unterminated(raw[i].line) <==>
      || (!raw[i].Insert? && !oldLines.finalNewline && oldLine == |oldLines.lines|)
      || (!raw[i].Delete? && !newLines.finalNewline && newLine == |newLines.lines|)
  {
    LineOfSide(raw, i);
    if !raw[i].Insert? {
      TaggedUnterminated(oldLines, oldLine - 1);
    }
    if !raw[i].Delete? {
      TaggedUnterminated(newLines, newLine - 1);
    }
  }

  /** What is printed for one stripped edit (src/git/gitReads.ts:943-955). */
  function PrintedEdit(edit: Edit, missing: bool): string {
    [Sign(edit)] + edit.line + "\n" + (if missing then NO_NEWLINE + "\n" else "")
  }

  lemma TerminatedEdit(e: Edit)
    ensures Terminated(EditLines(e)) == PrintedEdit(MapEdit(Strip, e), Unterminated(e.line))
  {
    var first := [Sign(e)] + Strip(e.line);
    TerminatedOne(first);
    if Unterminated(e.line) {
      TerminatedOne(NO_NEWLINE);
      TerminatedAppend([first], [NO_NEWLINE]);
    } else {
      assert EditLines(e) == [first];
      assert first + "\n" + "" == first + "\n";
    }
  }

  lemma TerminatedBodySnoc(es: seq<Edit>, e: Edit)
    ensures Terminated(BodyLines(es + [e])) == Terminated(BodyLines(es)) + Terminated(EditLines(e))
  {
    BodyLinesSnoc(es, e);
    TerminatedAppend(BodyLines(es), EditLines(e));
  }

  /** The lines printed for the edits from start up to index, and the line counters there. */
  ghost predicate BodyPrinted(output: string, raw: seq<Edit>, start: nat, index: nat, oldLine: nat, newLine: nat) {
    && start <= index <= |raw| && output == Terminated(BodyLines(raw[start..index]))
    && oldLine == |OldSide(raw[..index])| && newLine == |NewSide(raw[..index])|
  }

  lemma BodyPrintedNothing(raw: seq<Edit>, start: nat, oldLine: nat, newLine: nat)
    requires start <= |raw| && oldLine == |OldSide(raw[..start])| && newLine == |NewSide(raw[..start])|
    ensures BodyPrinted("", raw, start, start, oldLine, newLine)
  {
    assert raw[start..start] == [];
  }

  lemma BodyPrintedNext(output: string, raw: seq<Edit>, start: nat, index: nat, oldLine: nat, newLine: nat,
                        printed: string, nextOld: nat, nextNew: nat)
    requires BodyPrinted(output, raw, start, index, oldLine, newLine) && index < |raw|
    requires printed == PrintedEdit(MapEdit(Strip, raw[index]), Unterminated(raw[index].line))
    requires nextOld == if raw[index].Insert? then oldLine else oldLine + 1
    requires nextNew == if raw[index].Delete? then newLine else newLine + 1
    ensures BodyPrinted(output + printed, raw, start, index + 1, nextOld, nextNew)
  {
    var e := raw[index];
    TerminatedEdit(e);
    assert raw[start..index + 1] == raw[start..index] + [e];
    TerminatedBodySnoc(raw[start..index], e);
    TakeNext(raw, index);
    SidesOfSnoc(raw[..index], e);
  }

  /** Prints one edit and advances the line counters (src/git/gitReads.ts:939-955). */
  method PrintEdit(edit: Edit, ghost raw: seq<Edit>, ghost index: nat, oldLines: Split, newLines: Split,
                   oldBefore: nat, newBefore: nat)
    returns (printed: string, oldLine: nat, newLine: nat)
    requires Between(raw, oldLines, newLines) && index < |raw| && edit == MapEdit(Strip, raw[index])
    requires oldBefore == |OldSide(raw[..index])| && newBefore == |NewSide(raw[..index])|
    ensures printed == PrintedEdit(MapEdit(Strip, raw[index]), Unterminated(raw[index].line))
    ensures oldLine == if raw[index].Insert? then oldBefore else oldBefore + 1
    ensures newLine == if raw[index].Delete? then newBefore else newBefore + 1
  {
    oldLine, newLine := oldBefore, newBefore;
    if !edit.Insert? {
      oldLine := oldLine + 1;
    }
    if !edit.Delete? {
      newLine := newLine + 1;
    }
    var oldMissing := !edit.Insert? && !oldLines.finalNewline && oldLine == |oldLines.lines|;
    var newMissing := !edit.Delete? && !newLines.finalNewline && newLine == |newLines.lines|;
    MissingNewline(raw, oldLines, newLines, index, oldLine, newLine);
    printed := PrintedEdit(edit, oldMissing || newMissing);
  }

  ghost predicate IsBody(text: string, raw: seq<Edit>, g: Group)
    requires ValidGroup(raw, g)
  {
    text == Terminated(BodyLines(GroupEdits(raw, g)))
  }

  lemma BodyPrintedAll(output: string, raw: seq<Edit>, g: Group, oldLine: nat, newLine: nat)
    requires ValidGroup(raw, g) && BodyPrinted(output, raw, g.0, g.1 + 1, oldLine, newLine)
    ensures IsBody(output, raw, g)
  {
  }

  /** Prints the lines of one hunk (src/git/gitReads.ts:936-956). */
  method PrintBody(edits: seq<Edit>, ghost raw: seq<Edit>, oldLines: Split, newLines: Split, g: Group,
                   oldBefore: nat, newBefore: nat, work: Meter)
    returns (r: Result<string, GitError>)
    requires Between(raw, oldLines, newLines) && edits == MapEdits(Strip, raw) && ValidGroup(raw, g)
    requires oldBefore == |OldSide(raw[..g.0])| && newBefore == |NewSide(raw[..g.0])|
    modifies work
    ensures r.Success? ==> IsBody(r.value, raw, g)
    ensures r.Failure? ==> Exhausted(r.error, work)
  {
    var output: string := "";
    var oldLine, newLine := oldBefore, newBefore;
    BodyPrintedNothing(raw, g.0, oldLine, newLine);
    for index := g.0 to g.1 + 1
      invariant BodyPrinted(output, raw, g.0, index, oldLine, newLine)
    {
      :- work.Charge();
      var printed, nextOld, nextNew := PrintEdit(edits[index], raw, index, oldLines, newLines, oldLine, newLine);
      BodyPrintedNext(output, raw, g.0, index, oldLine, newLine, printed, nextOld, nextNew);
      output, oldLine, newLine := output + printed, nextOld, nextNew;
    }
    BodyPrintedAll(output, raw, g, oldLine, newLine);
    return Success(output);
  }

  lemma CountsOfMap(raw: seq<Edit>, p: nat, q: nat)
    requires p <= q <= |raw|
    ensures |OldSide(MapEdits(Strip, raw)[p..q])| == |OldSide(raw[p..q])|
    ensures |NewSide(MapEdits(Strip, raw)[p..q])| == |NewSide(raw[p..q])|
  {
    assert MapEdits(Strip, raw)[p..q] == MapEdits(Strip, raw[p..q]);
    SidesOfMap(Strip, raw[p..q]);
  }

  /** The text of a header and a body (src/git/gitReads.ts:935-956). */
  lemma TerminatedHunk(raw: seq<Edit>, g: Group, h: Hunk)
    requires ValidGroup(raw, g) && h == HunkOf(raw, g)
    ensures Terminated(HunkLines(raw, g)) == HeaderLine(h) + "\n" + Terminated(BodyLines(GroupEdits(raw, g)))
  {
    TerminatedOne(HeaderLine(h));
    TerminatedAppend([HeaderLine(h)], BodyLines(GroupEdits(raw, g)));
  }

  /** The printed form of the first groups. */
  ghost predicate Printed(output: string, path: string, raw: seq<Edit>, groups: seq<Group>)
    requires forall i | 0 <= i < |groups| :: ValidGroup(raw, groups[i])
  {
    output == Terminated(FileLines(path) + PatchLines(raw, groups))
  }

  lemma PrintedNothing(path: string, raw: seq<Edit>)
    ensures Printed("--- a/" + path + "\n+++ b/" + path + "\n", path, raw, [])
  {
    var first, second := "--- a/" + path, "+++ b/" + path;
    TerminatedOne(first);
    TerminatedOne(second);
    TerminatedAppend([first], [second]);
    assert FileLines(path) + PatchLines(raw, []) == [first] + [second];
    assert first + "\n" + (second + "\n") == "--- a/" + path + "\n+++ b/" + path + "\n";
  }

  ghost predicate IsHunk(text: string, raw: seq<Edit>, g: Group)
    requires ValidGroup(raw, g)
  {
    text == Terminated(HunkLines(raw, g))
  }

  lemma PrintedMore(output: string, path: string, raw: seq<Edit>, groups: seq<Group>, i: nat, text: string)
    requires i < |groups| && forall j | 0 <= j < |groups| :: ValidGroup(raw, groups[j])
    requires Printed(output, path, raw, groups[..i]) && IsHunk(text, raw, groups[i])
    ensures Printed(output + text, path, raw, groups[..i + 1])
  {
    var g, before := groups[i], groups[..i];
    TakeNext(groups, i);
    PatchLinesSnoc(raw, before, g);
    Associative(FileLines(path), PatchLines(raw, before), HunkLines(raw, g));
    TerminatedAppend(FileLines(path) + PatchLines(raw, before), HunkLines(raw, g));
  }

  /** The printer's position: how many edits are behind it, and how many old and new lines they hold. */
  datatype Position = Position(cursor: nat, oldBefore: nat, newBefore: nat)

  ghost predicate At(raw: seq<Edit>, p: Position) {
    p.cursor <= |raw| && p.oldBefore == |OldSide(raw[..p.cursor])| && p.newBefore == |NewSide(raw[..p.cursor])|
  }

  /** Moves over edits, counting their lines (src/git/gitReads.ts:921-926 and 957-959). */
  method Advance(edits: seq<Edit>, ghost raw: seq<Edit>, p: Position, next: nat, work: Meter)
    returns (r: Result<Position, GitError>)
    requires edits == MapEdits(Strip, raw) && At(raw, p) && p.cursor <= next <= |raw|
    modifies work
    ensures r.Success? ==> At(raw, r.value) && r.value.cursor == next
    ensures r.Failure? ==> Exhausted(r.error, work)
  {
    var counts :- CountSides(edits, p.cursor, next, work);
    CountsOfMap(raw, p.cursor, next);
    SidesOfPrefix(raw, p.cursor, next);
    return Success(Position(next, p.oldBefore + counts.0, p.newBefore + counts.1));
  }

  /** The header computed from the positions around a group is the header of its hunk. */
  lemma HeaderOf(raw: seq<Edit>, g: Group, before: Position, after: Position)
    requires ValidGroup(raw, g) && At(raw, before) && At(raw, after) && before.cursor == g.0 && after.cursor == g.1 + 1
    ensures before.oldBefore <= after.oldBefore && before.newBefore <= after.newBefore
    ensures HeaderLine(HunkOf(raw, g)) == HeaderText(before.oldBefore + 1, after.oldBefore - before.oldBefore,
                                                     before.newBefore + 1, after.newBefore - before.newBefore)
  {
    SidesOfPrefix(raw, g.0, g.1 + 1);
  }

  /** Prints one hunk whose place in the texts is known (src/git/gitReads.ts:935-956). */
  method PrintHunk(edits: seq<Edit>, ghost raw: seq<Edit>, oldLines: Split, newLines: Split, g: Group, before: Position,
                   after: Position, work: Meter)
    returns (r: Result<string, GitError>)
    requires Between(raw, oldLines, newLines) && edits == MapEdits(Strip, raw) && ValidGroup(raw, g)
    requires At(raw, before) && At(raw, after) && before.cursor == g.0 && after.cursor == g.1 + 1
    modifies work
    ensures r.Success? ==> IsHunk(r.value, raw, g)
    ensures r.Failure? ==> Exhausted(r.error, work)
  {
    HeaderOf(raw, g, before, after);
    var header := HeaderText(before.oldBefore + 1, after.oldBefore - before.oldBefore,
                             before.newBefore + 1, after.newBefore - before.newBefore);
    var body :- PrintBody(edits, raw, oldLines, newLines, g, before.oldBefore, before.newBefore, work);
    TerminatedHunk(raw, g, HunkOf(raw, g));
    return Success(header + "\n" + body);
  }

  /** Prints the hunk of one group, and moves the printer over it (src/git/gitReads.ts:919-959). */
  method PrintGroup(edits: seq<Edit>, ghost raw: seq<Edit>, oldLines: Split, newLines: Split, g: Group, p: Position, work: Meter)
    returns (r: Result<(string, Position), GitError>)
    requires Between(raw, oldLines, newLines) && edits == MapEdits(Strip, raw) && ValidGroup(raw, g)
    requires At(raw, p) && p.cursor <= g.0
    modifies work
    ensures r.Success? ==> IsHunk(r.value.0, raw, g) && At(raw, r.value.1) && r.value.1.cursor == g.1 + 1
    ensures r.Failure? ==> Exhausted(r.error, work)
  {
    var before :- Advance(edits, raw, p, g.0, work);
    var after :- Advance(edits, raw, before, g.1 + 1, work);
    var hunk :- PrintHunk(edits, raw, oldLines, newLines, g, before, after, work);
    return Success((hunk, after));
  }

  /** Groups one after the other. */
  ghost predicate Ascending(es: seq<Edit>, groups: seq<Group>) {
    && (forall i | 0 <= i < |groups| :: ValidGroup(es, groups[i]))
    && (forall i, j | 0 <= i < j < |groups| :: groups[i].1 < groups[j].0)
  }

  /** Prints the file header and all hunks (src/git/gitReads.ts:915-960). */
  method PrintPatch(edits: seq<Edit>, ghost raw: seq<Edit>, oldLines: Split, newLines: Split, groups: seq<Group>, path: string,
                    work: Meter)
    returns (r: Result<string, GitError>)
    requires Between(raw, oldLines, newLines) && edits == MapEdits(Strip, raw) && Ascending(raw, groups)
    modifies work
    ensures r.Success? ==> Printed(r.value, path, raw, groups)
    ensures r.Failure? ==> Exhausted(r.error, work)
  {
    var output := "--- a/" + path + "\n+++ b/" + path + "\n";
    PrintedNothing(path, raw);
    var p := Position(0, 0, 0);
    for i := 0 to |groups|
      invariant Printed(output, path, raw, groups[..i])
      invariant At(raw, p) && p.cursor == if i == 0 then 0 else groups[i - 1].1 + 1
    {
      :- work.Charge();
      var printed :- PrintGroup(edits, raw, oldLines, newLines, groups[i], p, work);
      PrintedMore(output, path, raw, groups, i, printed.0);
      output, p := output + printed.0, printed.1;
    }
    assert groups[..|groups|] == groups;
    return Success(output);
  }

  /** What the printer promises about its text: a shortest script in hunks with the promised geometry. */
  ghost predicate CanonicalFor(patch: string, path: string, oldText: string, newText: string, raw: seq<Edit>,
                               groups: seq<Group>, runs: seq<Run>)
  {
    && Turns(raw, Tagged(SplitLines(oldText)), Tagged(SplitLines(newText)))
    && Minimal(raw, Tagged(SplitLines(oldText)), Tagged(SplitLines(newText)))
    && Grouped(raw, groups, runs, |raw|) && Tight(raw, runs) && Geometry(raw, groups)
    && Printed(patch, path, raw, groups)
  }

  ghost predicate Canonical(patch: string, path: string, oldText: string, newText: string) {
    exists raw, groups, runs :: CanonicalFor(patch, path, oldText, newText, raw, groups, runs)
  }

  /** Grouping looks only at which edits are changes, not at their lines. */
  lemma GroupedOfMap(f: string -> string, raw: seq<Edit>, groups: seq<Group>, runs: seq<Run>)
    requires Grouped(MapEdits(f, raw), groups, runs, |raw|)
    ensures Grouped(raw, groups, runs, |raw|)
  {
    var edits := MapEdits(f, raw);
    assert forall j :: Changed(edits, j) <==> Changed(raw, j);
  }

  lemma TightOfMap(f: string -> string, raw: seq<Edit>, runs: seq<Run>)
    requires Tight(MapEdits(f, raw), runs)
    ensures Tight(raw, runs)
  {
    var edits := MapEdits(f, raw);
    forall i, j | 0 <= i < |runs| && runs[i].0 <= j < runs[i].1 ensures ChangeFollows(raw, j, runs[i].1) {
      assert ChangeFollows(edits, j, runs[i].1);
      var k :| j < k <= j + 9 && k <= runs[i].1 && Changed(edits, k);
      assert Changed(raw, k);
    }
  }

  lemma BetweenTexts(raw: seq<Edit>, oldText: string, newText: string)
    requires Free(oldText, '\0') && Free(newText, '\0')
    requires Turns(raw, Tagged(SplitLines(oldText)), Tagged(SplitLines(newText)))
    ensures Between(raw, SplitLines(oldText), SplitLines(newText))
  {
    PiecesClean(oldText, '\0');
    PiecesClean(newText, '\0');
  }

  /** A shortest script has no change exactly if the texts are equal. */
  lemma ChangeIffDifferent(raw: seq<Edit>, oldText: string, newText: string)
    requires Free(oldText, '\0') && Free(newText, '\0')
    requires Turns(raw, Tagged(SplitLines(oldText)), Tagged(SplitLines(newText)))
    requires Minimal(raw, Tagged(SplitLines(oldText)), Tagged(SplitLines(newText)))
    ensures (exists j :: Changed(raw, j)) <==> oldText != newText
  {
    TaggedInjective(oldText, newText);
    ChangeCosts(raw);
    FreeScript(raw);
    if oldText == newText {
      var same := EqualScript(Tagged(SplitLines(oldText)));
    }
  }

  lemma ChangeCosts(raw: seq<Edit>)
    ensures (exists j :: Changed(raw, j)) <==> Cost(raw) != 0
  {
    FreeScript(raw);
    if Cost(raw) != 0 {
      var i :| 0 <= i < |raw| && !raw[i].Equal?;
      assert Changed(raw, i);
    }
  }

  lemma {:induction false} EqualScript(a: seq<string>) returns (es: seq<Edit>)
    ensures Turns(es, a, a) && Cost(es) == 0
  {
    es := [];
    if a != [] {
      var front := a[..|a| - 1];
      es := EqualScript(front);
      SidesOfSnoc(es, Equal(a[|a| - 1]));
      es := es + [Equal(a[|a| - 1])];
      assert a == front + [a[|a| - 1]];
    }
  }

  /**
   The canonical patch (src/git/gitReads.ts:861-964). Callers pass texts without NUL: a side that contains one
   is refused before it gets here (src/git/gitReads.ts:996-1000, src/yaml/strictYamlGate.ts:285).
   */
  method CanonicalUnifiedPatch(oldText: string, newText: string, path: string, work: Meter)
    returns (r: Result<string, GitError>)
    requires Free(oldText, '\0') && Free(newText, '\0')
    modifies work
    ensures r.Success? ==> (r.value == "" <==> oldText == newText)
    ensures r.Success? && r.value != "" ==> Canonical(r.value, path, oldText, newText) && ByteLength(r.value) <= GIT_MAX_PATCH_BYTES
    ensures r.Success? && Free(path, '\n') ==> ApplyPatch(r.value, oldText) == Some(newText)
    ensures r.Failure? ==>
      || Exhausted(r.error, work)
      || (r.error == PatchTooLarge
          && exists patch :: Canonical(patch, path, oldText, newText) && ByteLength(patch) > GIT_MAX_PATCH_BYTES)
  {
    var oldLines, newLines := SplitLines(oldText), SplitLines(newText);
    var a :- Comparable(oldLines, work);
    var b :- Comparable(newLines, work);
    var raw :- Myers.Myers(a, b, work);
    var stripped :- StripEdits(raw, work);
    ChangeIffDifferent(raw, oldText, newText);
    if !stripped.1 {
      EmptyPatch(oldText);
      return Success("");
    }
    var patch :- PatchFor(stripped.0, raw, oldText, newText, oldLines, newLines, path, work);
    if ByteLength(patch) > GIT_MAX_PATCH_BYTES {
      return Failure(PatchTooLarge);
    }
    return Success(patch);
  }

  lemma EmptyPatch(text: string)
    ensures ApplyPatch("", text) == Some(text)
  {
    RecordsJoin(text);
    assert Records(SplitLines(text))[0..] == Records(SplitLines(text));
  }

  lemma PrintedNotEmpty(patch: string, path: string, raw: seq<Edit>, groups: seq<Group>)
    requires (forall i | 0 <= i < |groups| :: ValidGroup(raw, groups[i])) && Printed(patch, path, raw, groups)
    ensures patch != ""
  {
    TerminatedEnds(FileLines(path) + PatchLines(raw, groups));
  }

  /** The patch of a script that has a change. */
  method PatchFor(edits: seq<Edit>, ghost raw: seq<Edit>, ghost oldText: string, ghost newText: string,
                  oldLines: Split, newLines: Split, path: string, work: Meter)
    returns (r: Result<string, GitError>)
    requires Free(oldText, '\0') && Free(newText, '\0')
    requires oldLines == SplitLines(oldText) && newLines == SplitLines(newText) && edits == MapEdits(Strip, raw)
    requires Turns(raw, Tagged(oldLines), Tagged(newLines)) && Minimal(raw, Tagged(oldLines), Tagged(newLines))
    modifies work
    ensures r.Success? ==> r.value != "" && Canonical(r.value, path, oldText, newText)
    ensures r.Success? && Free(path, '\n') ==> ApplyPatch(r.value, oldText) == Some(newText)
    ensures r.Failure? ==> Exhausted(r.error, work)
  {
    var changed :- ListChanges(edits, work);
    var grouped, runs := GroupChanges(edits, changed, work);
    var groups :- grouped;
    GroupedOfMap(Strip, raw, groups, runs);
    TightOfMap(Strip, raw, runs);
    GroupedGivesGeometry(raw, groups, runs);
    BetweenTexts(raw, oldText, newText);
    var patch :- PrintPatch(edits, raw, oldLines, newLines, groups, path, work);
    assert CanonicalFor(patch, path, oldText, newText, raw, groups, runs);
    PrintedNotEmpty(patch, path, raw, groups);
    if Free(path, '\n') {
      RoundTrip(raw, groups, path, oldText, newText);
    }
    return Success(patch);
  }
}
