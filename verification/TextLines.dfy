/** Texts as lines: splitting, and the records that a text is the concatenation of. */
module TextLines {
  import opened SeqFacts

  /** The lines of a text and whether the last one is terminated (src/git/gitReads.ts:1339-1344). */
  datatype Split = Split(lines: seq<string>, finalNewline: bool)

  /** The pieces of a text between newlines; the empty text is one empty piece. */
  function Pieces(text: string): (r: seq<string>)
    ensures 0 < |r|
  {
    if text == [] then [[]]
    else
      var rest := Pieces(text[1..]);
      if text[0] == '\n' then [[]] + rest else [[text[0]] + rest[0]] + rest[1..]
  }

  predicate EndsWithNewline(text: string) {
    text != [] && text[|text| - 1] == '\n'
  }

  function SplitLines(text: string): Split {
    var pieces := Pieces(text);
    if EndsWithNewline(text) then Split(pieces[..|pieces| - 1], true) else Split(pieces, false)
  }

  /** Each line with its terminator; only the last may have none. */
  function Records(s: Split): (r: seq<string>)
    ensures |r| == |s.lines|
    ensures forall i | 0 <= i < |r| :: r[i] == s.lines[i] + (if i == |r| - 1 && !s.finalNewline then "" else "\n")
    decreases |s.lines|
  {
    if s.lines == [] then []
    else [s.lines[0] + (if |s.lines| == 1 && !s.finalNewline then "" else "\n")]
         + Records(Split(s.lines[1..], s.finalNewline))
  }

  function Join(parts: seq<string>): string {
    if parts == [] then [] else parts[0] + Join(parts[1..])
  }

  /** The given lines, each terminated by a newline. */
  function Terminated(lines: seq<string>): string {
    if lines == [] then [] else lines[0] + "\n" + Terminated(lines[1..])
  }

  lemma TerminatedOne(line: string)
    ensures Terminated([line]) == line + "\n"
  {
    assert [line][1..] == [];
  }

  predicate Free(text: string, c: char) {
    c !in text
  }

  lemma {:induction false} PiecesClean(text: string, c: char)
    requires c == '\n' || Free(text, c)
    ensures forall i | 0 <= i < |Pieces(text)| :: Free(Pieces(text)[i], c)
  {
    if text != [] {
      PiecesClean(text[1..], c);
    }
  }

  /** Joining the pieces with a newline after each gives the text and one more newline. */
  lemma {:induction false} PiecesJoin(text: string)
    ensures Terminated(Pieces(text)) == text + "\n"
  {
    if text == [] {
      TerminatedOne([]);
    } else {
      var rest := Pieces(text[1..]);
      PiecesJoin(text[1..]);
      if text[0] == '\n' {
        assert Pieces(text)[1..] == rest;
        assert Terminated(Pieces(text)) == "\n" + Terminated(rest);
      } else {
        assert Pieces(text)[1..] == rest[1..];
        assert Terminated(Pieces(text)) == [text[0]] + Terminated(rest);
      }
      assert text + "\n" == [text[0]] + (text[1..] + "\n");
    }
  }

  /** A text that ends with a newline has an empty last piece. */
  lemma {:induction false} LastPiece(text: string)
    requires EndsWithNewline(text)
    ensures 1 < |Pieces(text)| && Pieces(text)[|Pieces(text)| - 1] == []
  {
    if |text| > 1 {
      LastPiece(text[1..]);
    } else {
      assert text[1..] == [];
    }
  }

  lemma {:induction false} TerminatedAppend(ls: seq<string>, ms: seq<string>)
    ensures Terminated(ls + ms) == Terminated(ls) + Terminated(ms)
  {
    if ls == [] {
      assert ls + ms == ms;
    } else {
      TerminatedAppend(ls[1..], ms);
      assert (ls + ms)[1..] == ls[1..] + ms;
      Associative(ls[0] + "\n", Terminated(ls[1..]), Terminated(ms));
    }
  }

  lemma {:induction false} JoinAppend(ls: seq<string>, ms: seq<string>)
    ensures Join(ls + ms) == Join(ls) + Join(ms)
  {
    if ls == [] {
      assert ls + ms == ms;
    } else {
      JoinAppend(ls[1..], ms);
      assert (ls + ms)[1..] == ls[1..] + ms;
      Associative(ls[0], Join(ls[1..]), Join(ms));
    }
  }

  lemma {:induction false} JoinOfTerminated(lines: seq<string>)
    ensures Join(Records(Split(lines, true))) == Terminated(lines)
  {
    if lines != [] {
      JoinOfTerminated(lines[1..]);
      assert Records(Split(lines, true))[1..] == Records(Split(lines[1..], true));
    }
  }

  lemma JoinOfUnterminated(front: seq<string>, last: string)
    ensures Join(Records(Split(front + [last], false))) == Terminated(front) + last
  {
    assert last + "" == last;
    assert Records(Split(front + [last], false)) == Records(Split(front, true)) + [last];
    JoinAppend(Records(Split(front, true)), [last]);
    JoinOfTerminated(front);
    assert [last][1..] == [];
  }

  lemma TerminatedPieces(text: string, front: seq<string>, last: string)
    requires Pieces(text) == front + [last]
    ensures Terminated(front) + last == text
  {
    PiecesJoin(text);
    TerminatedAppend(front, [last]);
    TerminatedOne(last);
    assert Terminated(front) + last + "\n" == Terminated(front) + (last + "\n");
    CancelNewline(Terminated(front) + last, text);
  }

  /** Splitting loses nothing: the records of a text concatenate to the text. */
  lemma RecordsJoin(text: string)
    ensures 0 < |SplitLines(text).lines|
    ensures Join(Records(SplitLines(text))) == text
  {
    var pieces := Pieces(text);
    var front, last := pieces[..|pieces| - 1], pieces[|pieces| - 1];
    assert pieces == front + [last];
    TerminatedPieces(text, front, last);
    if EndsWithNewline(text) {
      LastPiece(text);
      JoinOfTerminated(front);
    } else {
      JoinOfUnterminated(front, last);
    }
  }

  lemma CancelNewline(s: string, t: string)
    requires s + "\n" == t + "\n"
    ensures s == t
  {
    assert s == (s + "\n")[..|s + "\n"| - 1];
    assert t == (t + "\n")[..|t + "\n"| - 1];
  }

  /** Splitting undoes terminating. */
  lemma {:induction false} PiecesOfTerminated(lines: seq<string>)
    requires forall i | 0 <= i < |lines| :: Free(lines[i], '\n')
    ensures Pieces(Terminated(lines)) == lines + [[]]
    decreases |lines|, if lines == [] then 0 else |lines[0]|
  {
    if lines != [] {
      var text := Terminated(lines);
      if lines[0] == [] {
        PiecesOfTerminated(lines[1..]);
        assert text[1..] == Terminated(lines[1..]);
        assert lines == [[]] + lines[1..];
      } else {
        var shorter := [lines[0][1..]] + lines[1..];
        PiecesOfTerminated(shorter);
        assert shorter[1..] == lines[1..];
        assert text == [lines[0][0]] + Terminated(shorter);
        assert text[0] in lines[0];
        assert [text[0]] + shorter[0] == lines[0];
        assert (shorter + [[]])[1..] == lines[1..] + [[]];
      }
    }
  }

  lemma SplitOfTerminated(lines: seq<string>)
    requires lines != [] && forall i | 0 <= i < |lines| :: Free(lines[i], '\n')
    ensures SplitLines(Terminated(lines)) == Split(lines, true)
  {
    PiecesOfTerminated(lines);
    TerminatedEnds(lines);
  }

  lemma {:induction false} TerminatedEnds(lines: seq<string>)
    requires lines != []
    ensures EndsWithNewline(Terminated(lines))
  {
    if |lines| > 1 {
      TerminatedEnds(lines[1..]);
    } else {
      assert lines[1..] == [];
    }
  }
}
