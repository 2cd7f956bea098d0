/**
 Which edits form a hunk (src/git/gitReads.ts:898-913), the geometry that follows, and why
 applying the hunks turns the old records into the new ones.
 */
module PatchHunks {
  import opened Wrappers
  import opened EditScripts
  import opened TextLines
  import opened PatchFormat
  import opened PatchLayout
  import opened SeqFacts

  /** The first and the last changed edit of a hunk. */
  type Run = (nat, nat)

  predicate Changed(es: seq<Edit>, j: int) {
    0 <= j < |es| && !es[j].Equal?
  }

  predicate Inside(g: (nat, nat), j: int) {
    g.0 <= j <= g.1
  }

  predicate ValidRun(es: seq<Edit>, run: Run) {
    run.0 <= run.1 && Changed(es, run.0) && Changed(es, run.1)
  }

  /** A run with up to three edits of context on either side. */
  function WithContext(run: Run, n: nat): Group
    requires run.0 <= run.1 < n
  {
    (if run.0 < 3 then 0 else run.0 - 3, if n - 1 < run.1 + 3 then n - 1 else run.1 + 3)
  }

  ghost predicate Covered(spans: seq<(nat, nat)>, j: int) {
    exists i :: 0 <= i < |spans| && Inside(spans[i], j)
  }

  /** The groups are the runs with their context; the runs cover the changes below bound and lie ten or more apart. */
  ghost predicate Grouped(es: seq<Edit>, groups: seq<Group>, runs: seq<Run>, bound: nat) {
    && |runs| == |groups| && bound <= |es|
    && (forall i | 0 <= i < |runs| :: ValidRun(es, runs[i]) && runs[i].1 < bound && groups[i] == WithContext(runs[i], |es|))
    && (forall i, j | 0 <= i < j < |runs| :: runs[i].1 + 9 < runs[j].0)
    && (forall j {:trigger Covered(runs, j)} | 0 <= j < bound && Changed(es, j) :: Covered(runs, j))
  }

  /** Another change follows within nine edits, no later than the end of the run. */
  ghost predicate ChangeFollows(es: seq<Edit>, j: int, end: int) {
    exists k :: j < k <= j + 9 && k <= end && Changed(es, k)
  }

  /** No run has more than eight equal lines in a row. */
  ghost predicate Tight(es: seq<Edit>, runs: seq<Run>) {
    forall i, j | 0 <= i < |runs| && runs[i].0 <= j < runs[i].1 :: ChangeFollows(es, j, runs[i].1)
  }

  /** Hunks are ordered, at least three edits are left out between neighbours, every change lies in a hunk. */
  ghost predicate Geometry(es: seq<Edit>, groups: seq<Group>) {
    && (forall i | 0 <= i < |groups| :: ValidGroup(es, groups[i]))
    && (forall i, j | 0 <= i < j < |groups| :: groups[i].1 + 4 <= groups[j].0)
    && (forall j {:trigger Covered(groups, j)} | 0 <= j < |es| && Changed(es, j) :: Covered(groups, j))
    && (forall i | 0 <= i < |groups| :: groups[i].0 == 0 || !Changed(es, groups[i].0))
    && (forall i | 0 <= i < |groups| :: groups[i].1 == |es| - 1 || !Changed(es, groups[i].1))
  }

  /** A change lies in a given run or at least ten edits away from it. */
  lemma ChangeNearRun(es: seq<Edit>, groups: seq<Group>, runs: seq<Run>, i: nat, j: nat)
    requires Grouped(es, groups, runs, |es|) && i < |groups|
    ensures Changed(es, j) ==> j + 9 < runs[i].0 || Inside(runs[i], j) || runs[i].1 + 9 < j
  {
    if Changed(es, j) {
      assert Covered(runs, j);
      var r :| 0 <= r < |runs| && Inside(runs[r], j);
    }
  }

  lemma GroupEdges(es: seq<Edit>, groups: seq<Group>, runs: seq<Run>, i: nat)
    requires Grouped(es, groups, runs, |es|) && i < |groups|
    ensures groups[i].0 == 0 || !Changed(es, groups[i].0)
    ensures groups[i].1 == |es| - 1 || !Changed(es, groups[i].1)
  {
    ChangeNearRun(es, groups, runs, i, groups[i].0);
    ChangeNearRun(es, groups, runs, i, groups[i].1);
  }

  lemma ContextCovers(es: seq<Edit>, groups: seq<Group>, runs: seq<Run>, j: int)
    requires Grouped(es, groups, runs, |es|) && Changed(es, j)
    ensures Covered(groups, j)
  {
    assert Covered(runs, j);
    var i :| 0 <= i < |runs| && Inside(runs[i], j);
    assert Inside(groups[i], j);
  }

  lemma ContextsApart(es: seq<Edit>, groups: seq<Group>, runs: seq<Run>, i: nat, j: nat)
    requires Grouped(es, groups, runs, |es|) && i < j < |groups|
    ensures groups[i].1 + 4 <= groups[j].0
  {
  }

  /** The grouping rule gives the promised geometry. */
  lemma GroupedGivesGeometry(es: seq<Edit>, groups: seq<Group>, runs: seq<Run>)
    requires Grouped(es, groups, runs, |es|)
    ensures Geometry(es, groups)
  {
    forall i | 0 <= i < |groups|
      ensures groups[i].0 == 0 || !Changed(es, groups[i].0)
      ensures groups[i].1 == |es| - 1 || !Changed(es, groups[i].1)
    {
      GroupEdges(es, groups, runs, i);
    }
    forall i, j | 0 <= i < j < |groups| ensures groups[i].1 + 4 <= groups[j].0 {
      ContextsApart(es, groups, runs, i, j);
    }
    forall j | 0 <= j < |es| && Changed(es, j) ensures Covered(groups, j) {
      ContextCovers(es, groups, runs, j);
    }
  }

  /** No edit lies in two hunks. */
  lemma HunkIsUnique(es: seq<Edit>, groups: seq<Group>, i: nat, k: nat, j: nat)
    requires Geometry(es, groups) && i < |groups| && k < |groups| && Inside(groups[i], j) && Inside(groups[k], j)
    ensures i == k
  {
  }

  /** The two counts of every header are at least one, as long as both texts have a line. */
  lemma HeaderCounts(es: seq<Edit>, groups: seq<Group>, i: nat)
    requires Geometry(es, groups) && i < |groups| && OldSide(es) != [] && NewSide(es) != []
    ensures 1 <= HunkOf(es, groups[i]).oldCount && 1 <= HunkOf(es, groups[i]).newCount
  {
    var g := groups[i];
    var body := GroupEdits(es, g);
    if g.0 != 0 {
      LineOfSide(body, 0);
    } else if g.1 != |es| - 1 {
      LineOfSide(body, |body| - 1);
    } else {
      assert body == es;
    }
  }

  // ----- Applying the hunks -----

  /** From index c on, every edit outside the remaining groups is an equal line. */
  ghost predicate Remaining(es: seq<Edit>, groups: seq<Group>, c: nat)
    decreases |groups|
  {
    if groups == [] then c <= |es| && forall j | c <= j < |es| :: es[j].Equal?
    else
      && c <= groups[0].0 && ValidGroup(es, groups[0])
      && (forall j | c <= j < groups[0].0 :: es[j].Equal?)
      && Remaining(es, groups[1..], groups[0].1 + 1)
  }

  lemma GroupOfChange(es: seq<Edit>, groups: seq<Group>, j: nat) returns (r: nat)
    requires Geometry(es, groups) && Changed(es, j)
    ensures r < |groups| && Inside(groups[r], j)
  {
    assert Covered(groups, j);
    r :| 0 <= r < |groups| && Inside(groups[r], j);
  }

  lemma {:induction false} GeometryRemaining(es: seq<Edit>, groups: seq<Group>, i: nat, c: nat)
    requires Geometry(es, groups) && i <= |groups|
    requires c == if i == 0 then 0 else groups[i - 1].1 + 1
    ensures Remaining(es, groups[i..], c)
    decreases |groups| - i
  {
    forall j | c <= j < (if i == |groups| then |es| else groups[i].0) ensures es[j].Equal? {
      if Changed(es, j) {
        var r := GroupOfChange(es, groups, j);
      }
    }
    if i < |groups| {
      GeometryRemaining(es, groups, i + 1, groups[i].1 + 1);
      assert groups[i..][1..] == groups[i + 1..];
    }
  }

  /** Splits a script at three places. */
  lemma SidesOfThree(es: seq<Edit>, p: nat, q: nat)
    requires p <= q <= |es|
    ensures OldSide(es) == OldSide(es[..p]) + OldSide(es[p..q]) + OldSide(es[q..])
    ensures NewSide(es) == NewSide(es[..p]) + NewSide(es[p..q]) + NewSide(es[q..])
  {
    ThreeParts(es, p, q);
    SidesOfAppend(es[..q], es[q..]);
    SidesOfAppend(es[..p], es[p..q]);
  }

  lemma SidesOfPrefix(es: seq<Edit>, p: nat, q: nat)
    requires p <= q <= |es|
    ensures OldSide(es[..q]) == OldSide(es[..p]) + OldSide(es[p..q])
    ensures NewSide(es[..q]) == NewSide(es[..p]) + NewSide(es[p..q])
  {
    ThreeParts(es, p, q);
    SidesOfAppend(es[..p], es[p..q]);
  }

  /** Edits that are all equal lines read and write the same. */
  lemma EqualSides(es: seq<Edit>, p: nat, q: nat)
    requires p <= q <= |es| && forall j | p <= j < q :: es[j].Equal?
    ensures OldSide(es[p..q]) == NewSide(es[p..q])
  {
    FreeScript(es[p..q]);
  }

  /** The hunk describes the edits of a group, whose lines are records. */
  ghost predicate Describes(h: Hunk, es: seq<Edit>, g: Group)
    requires ValidGroup(es, g)
  {
    && h.oldStart == |OldSide(es[..g.0])| + 1 && h.oldCount == |OldSide(GroupEdits(es, g))|
    && h.newStart == |NewSide(es[..g.0])| + 1 && h.newCount == |NewSide(GroupEdits(es, g))|
    && h.body == GroupEdits(es, g)
  }

  lemma HunkDescribes(es: seq<Edit>, g: Group)
    requires ValidGroup(es, g)
    ensures Describes(HunkOf(es, g), MapEdits(RecordOf, es), g)
  {
    var fs := MapEdits(RecordOf, es);
    assert fs[..g.0] == MapEdits(RecordOf, es[..g.0]);
    assert GroupEdits(fs, g) == MapEdits(RecordOf, GroupEdits(es, g));
    SidesOfMap(RecordOf, es[..g.0]);
    SidesOfMap(RecordOf, GroupEdits(es, g));
  }

  /** The position that the edits before index c lead to, in the old and in the new records. */
  ghost predicate PositionAt(es: seq<Edit>, c: nat, consumed: nat, emitted: nat) {
    c <= |es| && consumed == |OldSide(es[..c])| && emitted == |NewSide(es[..c])|
  }

  /** The lines of a group are where its hunk says. */
  lemma HunkHasItsLines(es: seq<Edit>, source: seq<string>, g: Group, h: Hunk)
    requires ValidGroup(es, g) && Describes(h, es, g) && source == OldSide(es)
    ensures h.oldStart - 1 + h.oldCount <= |source|
    ensures OldSide(h.body) == source[h.oldStart - 1..h.oldStart - 1 + h.oldCount]
  {
    SidesOfThree(es, g.0, g.1 + 1);
    Middle(OldSide(es[..g.0]), OldSide(GroupEdits(es, g)), OldSide(es[g.1 + 1..]));
  }

  /** The equal lines between two groups are the ones that are copied. */
  lemma GapIsCopied(es: seq<Edit>, source: seq<string>, c: nat, d: nat)
    requires c <= d <= |es| && source == OldSide(es) && forall j | c <= j < d :: es[j].Equal?
    ensures |OldSide(es[..c])| <= |OldSide(es[..d])| <= |source|
    ensures NewSide(es[c..d]) == source[|OldSide(es[..c])|..|OldSide(es[..d])|]
    ensures |NewSide(es[..d])| - |NewSide(es[..c])| == |OldSide(es[..d])| - |OldSide(es[..c])|
  {
    SidesOfPrefix(es, c, d);
    SidesOfThree(es, c, d);
    EqualSides(es, c, d);
    Middle(OldSide(es[..c]), OldSide(es[c..d]), OldSide(es[d..]));
  }

  /** A described hunk fits where it is applied, and carries the position over its group. */
  lemma DescribedFits(es: seq<Edit>, source: seq<string>, g: Group, h: Hunk, c: nat, consumed: nat, emitted: nat)
    requires ValidGroup(es, g) && Describes(h, es, g) && PositionAt(es, c, consumed, emitted) && source == OldSide(es)
    requires c <= g.0 && forall j | c <= j < g.0 :: es[j].Equal?
    ensures HunkFits(source, h, consumed, emitted)
    ensures NewSide(es[c..]) == source[consumed..h.oldStart - 1] + NewSide(h.body) + NewSide(es[g.1 + 1..])
    ensures PositionAt(es, g.1 + 1, h.oldStart - 1 + h.oldCount, h.newStart - 1 + h.newCount)
  {
    HunkHasItsLines(es, source, g, h);
    GapIsCopied(es, source, c, g.0);
    SidesOfPrefix(es, g.0, g.1 + 1);
    NewSideFrom(es, g, c);
  }

  lemma NewSideFrom(es: seq<Edit>, g: Group, c: nat)
    requires ValidGroup(es, g) && c <= g.0
    ensures NewSide(es[c..]) == NewSide(es[c..g.0]) + NewSide(GroupEdits(es, g)) + NewSide(es[g.1 + 1..])
  {
    SidesOfThree(es[c..], g.0 - c, g.1 + 1 - c);
    assert es[c..][..g.0 - c] == es[c..g.0];
    assert es[c..][g.0 - c..g.1 + 1 - c] == GroupEdits(es, g);
    assert es[c..][g.1 + 1 - c..] == es[g.1 + 1..];
  }

  lemma AllEqualFrom(es: seq<Edit>, c: nat, consumed: nat, emitted: nat)
    requires c <= |es| && PositionAt(es, c, consumed, emitted) && forall j | c <= j < |es| :: es[j].Equal?
    ensures Yields(OldSide(es), [], consumed, emitted, NewSide(es[c..]))
  {
    SidesOfPrefix(es, c, |es|);
    EqualSides(es, c, |es|);
    assert es[..|es|] == es && es[c..|es|] == es[c..];
  }

  ghost predicate Yields(source: seq<string>, hunks: seq<Hunk>, consumed: nat, emitted: nat, target: seq<string>) {
    Apply(source, hunks, consumed, emitted) == Some(target)
  }

  lemma YieldsNext(source: seq<string>, hunks: seq<Hunk>, h: Hunk, consumed: nat, emitted: nat,
                   nextConsumed: nat, nextEmitted: nat, rest: seq<string>, target: seq<string>)
    requires hunks != [] && h == hunks[0] && HunkFits(source, h, consumed, emitted)
    requires nextConsumed == h.oldStart - 1 + h.oldCount && nextEmitted == h.newStart - 1 + h.newCount
    requires Yields(source, hunks[1..], nextConsumed, nextEmitted, rest)
    requires target == source[consumed..h.oldStart - 1] + NewSide(h.body) + rest
    ensures Yields(source, hunks, consumed, emitted, target)
  {
  }

  /** Each hunk describes the group at its position. */
  ghost predicate DescribeAll(hunks: seq<Hunk>, es: seq<Edit>, groups: seq<Group>)
    decreases |groups|
  {
    if groups == [] then hunks == []
    else
      && hunks != [] && ValidGroup(es, groups[0]) && Describes(hunks[0], es, groups[0])
      && DescribeAll(hunks[1..], es, groups[1..])
  }

  /** Applying the hunks of a script to what it reads gives what it writes. */
  lemma {:induction false} ApplyHunks(es: seq<Edit>, source: seq<string>, groups: seq<Group>, hunks: seq<Hunk>,
                                      c: nat, consumed: nat, emitted: nat, target: seq<string>)
    requires Remaining(es, groups, c) && DescribeAll(hunks, es, groups)
    requires PositionAt(es, c, consumed, emitted) && source == OldSide(es) && target == NewSide(es[c..])
    ensures Yields(source, hunks, consumed, emitted, target)
    decreases |groups|
  {
    if groups == [] {
      AllEqualFrom(es, c, consumed, emitted);
    } else {
      var g, h := groups[0], hunks[0];
      var nextConsumed, nextEmitted := h.oldStart - 1 + h.oldCount, h.newStart - 1 + h.newCount;
      var rest := NewSide(es[g.1 + 1..]);
      DescribedFits(es, source, g, h, c, consumed, emitted);
      ApplyHunks(es, source, groups[1..], hunks[1..], g.1 + 1, nextConsumed, nextEmitted, rest);
      YieldsNext(source, hunks, h, consumed, emitted, nextConsumed, nextEmitted, rest, target);
    }
  }
}
