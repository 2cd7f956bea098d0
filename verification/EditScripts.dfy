/**
 Edit scripts over lines: what a script reads, what it writes, and what it costs.
 These are the notions in which the diff (src/git/gitReads.ts:1345-1428) is specified.
 */
module EditScripts {

  /** One step of a script (src/git/gitReads.ts:860). */
  datatype Edit = Equal(line: string) | Delete(line: string) | Insert(line: string)

  /** The lines a script consumes: its equal and delete lines. */
  function OldSide(es: seq<Edit>): seq<string> {
    if es == [] then []
    else OldSide(es[..|es| - 1]) + (var e := es[|es| - 1]; if e.Insert? then [] else [e.line])
  }

  /** The lines a script produces: its equal and insert lines. */
  function NewSide(es: seq<Edit>): seq<string> {
    if es == [] then []
    else NewSide(es[..|es| - 1]) + (var e := es[|es| - 1]; if e.Delete? then [] else [e.line])
  }

  /** How many lines a script deletes or inserts. */
  function Cost(es: seq<Edit>): nat {
    if es == [] then 0
    else Cost(es[..|es| - 1]) + (if es[|es| - 1].Equal? then 0 else 1)
  }

  ghost predicate Turns(es: seq<Edit>, a: seq<string>, b: seq<string>) {
    OldSide(es) == a && NewSide(es) == b
  }

  /** The script reads a beginning of a and writes a beginning of b. */
  ghost predicate Fits(es: seq<Edit>, a: seq<string>, b: seq<string>) {
    OldSide(es) <= a && NewSide(es) <= b
  }

  /** No script turning a into b deletes and inserts fewer lines. */
  ghost predicate Minimal(es: seq<Edit>, a: seq<string>, b: seq<string>) {
    forall other :: Turns(other, a, b) ==> Cost(es) <= Cost(other)
  }

  lemma SidesOfOne(e: Edit)
    ensures OldSide([e]) == if e.Insert? then [] else [e.line]
    ensures NewSide([e]) == if e.Delete? then [] else [e.line]
    ensures Cost([e]) == if e.Equal? then 0 else 1
  {
    assert [e][..0] == [];
    assert OldSide([e]) == OldSide([]) + (if e.Insert? then [] else [e.line]);
    assert NewSide([e]) == NewSide([]) + (if e.Delete? then [] else [e.line]);
  }

  lemma SidesOfSnoc(es: seq<Edit>, e: Edit)
    ensures OldSide(es + [e]) == OldSide(es) + (if e.Insert? then [] else [e.line])
    ensures NewSide(es + [e]) == NewSide(es) + (if e.Delete? then [] else [e.line])
    ensures Cost(es + [e]) == Cost(es) + (if e.Equal? then 0 else 1)
  {
    assert (es + [e])[..|es|] == es;
  }

  lemma {:induction false} SidesOfAppend(es: seq<Edit>, fs: seq<Edit>)
    ensures OldSide(es + fs) == OldSide(es) + OldSide(fs)
    ensures NewSide(es + fs) == NewSide(es) + NewSide(fs)
    ensures Cost(es + fs) == Cost(es) + Cost(fs)
  {
    if fs == [] {
      assert es + fs == es;
    } else {
      var front, e := fs[..|fs| - 1], fs[|fs| - 1];
      SidesOfAppend(es, front);
      assert es + fs == es + front + [e];
      assert fs == front + [e];
      SidesOfSnoc(es + front, e);
      SidesOfSnoc(front, e);
    }
  }

  /** The difference of the two lengths and the cost have the same parity. */
  lemma {:induction false} DiagonalParity(es: seq<Edit>)
    ensures -(Cost(es) as int) <= |OldSide(es)| - |NewSide(es)| <= Cost(es)
    ensures (|OldSide(es)| - |NewSide(es)| + Cost(es)) % 2 == 0
  {
    if es != [] {
      DiagonalParity(es[..|es| - 1]);
    }
  }

  function Deletions(lines: seq<string>): (es: seq<Edit>)
    ensures |es| == |lines|
  {
    if lines == [] then [] else Deletions(lines[..|lines| - 1]) + [Delete(lines[|lines| - 1])]
  }

  function Insertions(lines: seq<string>): (es: seq<Edit>)
    ensures |es| == |lines|
  {
    if lines == [] then [] else Insertions(lines[..|lines| - 1]) + [Insert(lines[|lines| - 1])]
  }

  lemma {:induction false} SidesOfDeletions(lines: seq<string>)
    ensures Turns(Deletions(lines), lines, []) && Cost(Deletions(lines)) == |lines|
  {
    if lines != [] {
      SidesOfDeletions(lines[..|lines| - 1]);
      var es := Deletions(lines);
      assert es[..|es| - 1] == Deletions(lines[..|lines| - 1]);
    }
  }

  lemma {:induction false} SidesOfInsertions(lines: seq<string>)
    ensures Turns(Insertions(lines), [], lines) && Cost(Insertions(lines)) == |lines|
  {
    if lines != [] {
      SidesOfInsertions(lines[..|lines| - 1]);
      var es := Insertions(lines);
      assert es[..|es| - 1] == Insertions(lines[..|lines| - 1]);
    }
  }

  /** Deleting everything and inserting everything is always a script. */
  lemma RewriteScript(a: seq<string>, b: seq<string>)
    ensures Turns(Deletions(a) + Insertions(b), a, b)
    ensures Cost(Deletions(a) + Insertions(b)) == |a| + |b|
  {
    SidesOfDeletions(a);
    SidesOfInsertions(b);
    SidesOfAppend(Deletions(a), Insertions(b));
  }

  /** A script without changes writes what it reads, and only such a script is free. */
  lemma {:induction false} FreeScript(es: seq<Edit>)
    ensures Cost(es) == 0 <==> forall i | 0 <= i < |es| :: es[i].Equal?
    ensures Cost(es) == 0 ==> OldSide(es) == NewSide(es)
  {
    if es != [] {
      FreeScript(es[..|es| - 1]);
    }
  }

  /** Every line that occurs in a script is a line of one of its sides. */
  lemma {:induction false} LineOfSide(es: seq<Edit>, i: nat)
    requires i < |es|
    ensures !es[i].Insert? ==> |OldSide(es[..i])| < |OldSide(es)| && OldSide(es)[|OldSide(es[..i])|] == es[i].line
    ensures !es[i].Delete? ==> |NewSide(es[..i])| < |NewSide(es)| && NewSide(es)[|NewSide(es[..i])|] == es[i].line
  {
    SidesOfAppend(es[..i], es[i..]);
    SidesOfAppend([es[i]], es[i + 1..]);
    SidesOfOne(es[i]);
    assert es == es[..i] + es[i..];
    assert es[i..] == [es[i]] + es[i + 1..];
  }

  /** The order in which a script found from its end is handed out. */
  function Reverse(es: seq<Edit>): (r: seq<Edit>)
    ensures |r| == |es|
    ensures forall i | 0 <= i < |es| :: r[i] == es[|es| - 1 - i]
  {
    if es == [] then [] else [es[|es| - 1]] + Reverse(es[..|es| - 1])
  }
}
