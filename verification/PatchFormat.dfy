/**
 The unified patch format, read independently of the printer: a parser that trusts only the
 header counts, and a strict application that checks every header number and every line.
 */
module PatchFormat {
  import opened Wrappers
  import opened EditScripts
  import opened TextLines
  import opened Decimals

  const NO_NEWLINE := "\\ No newline at end of file"

  /** A hunk; the lines of its body are records, that is, with their newline if they have one. */
  datatype Hunk = Hunk(oldStart: nat, oldCount: nat, newStart: nat, newCount: nat, body: seq<Edit>)

  /** What is left of a text after the expected beginning. */
  function Expect(text: string, beginning: string): Option<string> {
    if beginning <= text then Some(text[|beginning|..]) else None
  }

  /** A number after the given beginning, and what follows it. */
  function ParseField(text: string, beginning: string): Option<(nat, string)> {
    match Expect(text, beginning)
    case None => None
    case Some(rest) => ParseNat(rest)
  }

  /** The four numbers of a hunk header. */
  function ParseHeader(line: string): Option<(nat, nat, nat, nat)> {
    match ParseField(line, "@@ -")
    case None => None
    case Some(f1) =>
      match ParseField(f1.1, ",")
      case None => None
      case Some(f2) =>
        match ParseField(f2.1, " +")
        case None => None
        case Some(f3) =>
          match ParseField(f3.1, ",")
          case None => None
          case Some(f4) => if f4.1 == " @@" then Some((f1.0, f2.0, f3.0, f4.0)) else None
  }

  /** The edit on a body line. */
  function ParseEdit(line: string, noNewline: bool): Option<Edit> {
    if line == [] then None
    else
      var record := line[1..] + (if noNewline then "" else "\n");
      if line[0] == ' ' then Some(Equal(record))
      else if line[0] == '-' then Some(Delete(record))
      else if line[0] == '+' then Some(Insert(record))
      else None
  }

  /** Reads body lines until both counts are used up. */
  function ParseBody(lines: seq<string>, oldCount: nat, newCount: nat): (r: Option<(seq<Edit>, seq<string>)>)
    ensures r.Some? ==> |r.value.1| <= |lines|
    decreases |lines|
  {
    if oldCount == 0 && newCount == 0 then Some(([], lines))
    else if lines == [] then None
    else
      var noNewline := 1 < |lines| && lines[1] == NO_NEWLINE;
      match ParseEdit(lines[0], noNewline)
      case None => None
      case Some(e) =>
        if (!e.Insert? && oldCount == 0) || (!e.Delete? && newCount == 0) then None
        else
          match ParseBody(lines[if noNewline then 2 else 1..],
                          if e.Insert? then oldCount else oldCount - 1,
                          if e.Delete? then newCount else newCount - 1)
          case None => None
          case Some(r) => Some(([e] + r.0, r.1))
  }

  function ParseHunks(lines: seq<string>): Option<seq<Hunk>>
    decreases |lines|
  {
    if lines == [] then Some([])
    else
      match ParseHeader(lines[0])
      case None => None
      case Some(h) =>
        match ParseBody(lines[1..], h.1, h.3)
        case None => None
        case Some(b) =>
          match ParseHunks(b.1)
          case None => None
          case Some(rest) => Some([Hunk(h.0, h.1, h.2, h.3, b.0)] + rest)
  }

  /** The hunks of a patch to one file; the empty text is the empty patch. */
  function Parse(patch: string): Option<seq<Hunk>> {
    if patch == [] then Some([])
    else
      var s := SplitLines(patch);
      if !s.finalNewline || |s.lines| < 2 then None
      else
        match (Expect(s.lines[0], "--- a/"), Expect(s.lines[1], "+++ b/"))
        case (Some(p), Some(q)) => if p == q then ParseHunks(s.lines[2..]) else None
        case _ => None
  }

  /** The hunk fits the records where its header says, after what was consumed and emitted. */
  predicate HunkFits(source: seq<string>, h: Hunk, consumed: nat, emitted: nat) {
    var at := h.oldStart - 1;
    && consumed <= at && at + h.oldCount <= |source| && h.newStart - 1 == emitted + at - consumed
    && OldSide(h.body) == source[at..at + h.oldCount] && |NewSide(h.body)| == h.newCount
  }

  function PutBefore(part: seq<string>, rest: Option<seq<string>>): Option<seq<string>> {
    match rest
    case None => None
    case Some(records) => Some(part + records)
  }

  /** Applies hunks to the records of a text, of which consumed are copied and emitted are written. */
  function Apply(source: seq<string>, hunks: seq<Hunk>, consumed: nat, emitted: nat): Option<seq<string>>
    decreases |hunks|
  {
    if hunks == [] then (if consumed <= |source| then Some(source[consumed..]) else None)
    else if HunkFits(source, hunks[0], consumed, emitted) then
      var at := hunks[0].oldStart - 1;
      PutBefore(source[consumed..at] + NewSide(hunks[0].body),
                Apply(source, hunks[1..], at + hunks[0].oldCount, hunks[0].newStart - 1 + hunks[0].newCount))
    else None
  }

  /** Applies a patch to a text; nothing if the patch is malformed or does not fit. */
  function ApplyPatch(patch: string, oldText: string): Option<string> {
    match Parse(patch)
    case None => None
    case Some(hunks) =>
      match Apply(Records(SplitLines(oldText)), hunks, 0, 0)
      case None => None
      case Some(records) => Some(Join(records))
  }
}
