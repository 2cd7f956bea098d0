/**
 The line diff (src/git/gitReads.ts:1345-1428): the furthest-reaching table, its
 recorded rounds, and the walk back through them.

 Rounds says how the recorded tables follow from each other. Two lemmas give the tables their
 meaning: a script attains every entry, and no script of at most d changes gets further on its
 diagonal than round d did.
 */
module Myers {
  import opened Wrappers
  import opened GitWork
  import opened EditScripts
  import opened SeqFacts

  /** Maps a diagonal k to the furthest position x in a; the position in b is x - k. */
  type Table = map<int, int>

  /** The diagonals that round d visits. */
  predicate OnRow(d: int, k: int) {
    -d <= k <= d && (d + k) % 2 == 0
  }

  function Get(v: Table, k: int, missing: int): int {
    if k in v then v[k] else missing
  }

  /** Whether diagonal k of round d is entered by an insertion (src/git/gitReads.ts:1366 and 1393). */
  predicate ByInsert(v: Table, d: int, k: int) {
    k + d == 0 || (k != d && Get(v, k - 1, -1) < Get(v, k + 1, -1))
  }

  /** Where diagonal k of round d is entered. */
  function Entry(v: Table, d: int, k: int): int {
    if ByInsert(v, d, k) then Get(v, k + 1, 0) else Get(v, k - 1, 0) + 1
  }

  /** How far the common lines starting at (x, y) extend, as a position in a. */
  ghost function Slide(a: seq<string>, b: seq<string>, x: int, y: int): (r: int)
    ensures x <= r
    decreases |a| - x
  {
    if 0 <= x < |a| && 0 <= y < |b| && a[x] == b[y] then Slide(a, b, x + 1, y + 1) else x
  }

  /** The furthest position in a that round d reaches on diagonal k, working from a table. */
  ghost function Reach(a: seq<string>, b: seq<string>, v: Table, d: int, k: int): int {
    Slide(a, b, Entry(v, d, k), Entry(v, d, k) - k)
  }

  /** On its diagonals below bound, the table after holds row d as computed from the table before. */
  ghost predicate RoundBelow(a: seq<string>, b: seq<string>, before: Table, after: Table, d: int, bound: int) {
    forall k | OnRow(d, k) && k < bound :: k in after && after[k] == Reach(a, b, before, d, k)
  }

  ghost predicate Round(a: seq<string>, b: seq<string>, before: Table, after: Table, d: int) {
    RoundBelow(a, b, before, after, d, d + 1)
  }

  /** The recorded tables: each round works from the table that the round before left. */
  ghost predicate Rounds(a: seq<string>, b: seq<string>, tables: seq<Table>) {
    && 0 < |tables| && tables[0] == map[1 := 0]
    && forall d | 0 <= d < |tables| - 1 :: Round(a, b, tables[d], tables[d + 1], d)
  }

  /** The furthest position in a that round d reached on diagonal k. */
  function Far(tables: seq<Table>, d: nat, k: int): int
    requires d + 1 < |tables|
  {
    Get(tables[d + 1], k, -1)
  }

  lemma FarOfRound(a: seq<string>, b: seq<string>, tables: seq<Table>, d: nat, k: int)
    requires Rounds(a, b, tables) && d + 1 < |tables| && OnRow(d, k)
    ensures k in tables[d + 1]
    ensures Far(tables, d, k) == Reach(a, b, tables[d], d, k)
  {
    assert Round(a, b, tables[d], tables[d + 1], d);
  }

  /** A diagonal is entered from a neighbour that the round before visited. */
  lemma EntryFromNeighbour(a: seq<string>, b: seq<string>, tables: seq<Table>, d: nat, k: int)
    requires Rounds(a, b, tables) && d < |tables| && OnRow(d, k) && 0 < d
    ensures ByInsert(tables[d], d, k) ==> OnRow(d - 1, k + 1) && Entry(tables[d], d, k) == Far(tables, d - 1, k + 1)
    ensures !ByInsert(tables[d], d, k) ==> OnRow(d - 1, k - 1) && Entry(tables[d], d, k) == Far(tables, d - 1, k - 1) + 1
    ensures OnRow(d - 1, k - 1) ==> Far(tables, d - 1, k - 1) + 1 <= Entry(tables[d], d, k)
    ensures OnRow(d - 1, k + 1) ==> Far(tables, d - 1, k + 1) <= Entry(tables[d], d, k)
  {
    if k + d != 0 {
      FarOfRound(a, b, tables, d - 1, k - 1);
    }
    if k != d {
      FarOfRound(a, b, tables, d - 1, k + 1);
    }
  }

  function Min(x: int, y: int): int {
    if x <= y then x else y
  }

  function Max(x: int, y: int): int {
    if x <= y then y else x
  }

  // ----- Every entry is attained -----

  /** By how much a coordinate lies outside the texts. */
  function Excess(x: int, n: int): int {
    if x <= n then 0 else x - n
  }

  /** A script reaching (x, y) with d changes, where steps outside the texts count as changes. */
  ghost predicate Attains(es: seq<Edit>, a: seq<string>, b: seq<string>, d: int, x: int, y: int) {
    && 0 <= x && 0 <= y
    && Turns(es, a[..Min(x, |a|)], b[..Min(y, |b|)])
    && Cost(es) + Excess(x, |a|) + Excess(y, |b|) == d
  }

  lemma EqualAttained(es: seq<Edit>, a: seq<string>, b: seq<string>, d: int, x: int, y: int)
    requires Attains(es, a, b, d, x, y) && x < |a| && y < |b| && a[x] == b[y]
    ensures Attains(es + [Equal(a[x])], a, b, d, x + 1, y + 1)
  {
    SidesOfSnoc(es, Equal(a[x]));
    TakeNext(a, x);
    TakeNext(b, y);
  }

  lemma InsertAttained(es: seq<Edit>, a: seq<string>, b: seq<string>, d: int, x: int, y: int) returns (fs: seq<Edit>)
    requires Attains(es, a, b, d, x, y)
    ensures Attains(fs, a, b, d + 1, x, y + 1)
  {
    fs := es;
    if y < |b| {
      SidesOfSnoc(es, Insert(b[y]));
      TakeNext(b, y);
      fs := es + [Insert(b[y])];
    }
  }

  lemma DeleteAttained(es: seq<Edit>, a: seq<string>, b: seq<string>, d: int, x: int, y: int) returns (fs: seq<Edit>)
    requires Attains(es, a, b, d, x, y)
    ensures Attains(fs, a, b, d + 1, x + 1, y)
  {
    fs := es;
    if x < |a| {
      SidesOfSnoc(es, Delete(a[x]));
      TakeNext(a, x);
      fs := es + [Delete(a[x])];
    }
  }

  lemma {:induction false} SlideAttained(es: seq<Edit>, a: seq<string>, b: seq<string>, d: int, x: int, y: int, r: int)
    returns (fs: seq<Edit>)
    requires Attains(es, a, b, d, x, y) && r == Slide(a, b, x, y)
    ensures Attains(fs, a, b, d, r, y + r - x)
    decreases |a| - x
  {
    fs := es;
    if x < |a| && y < |b| && a[x] == b[y] {
      EqualAttained(es, a, b, d, x, y);
      fs := SlideAttained(es + [Equal(a[x])], a, b, d, x + 1, y + 1, r);
    }
  }

  /** Every entry of a table is reached by a script of exactly the round's number of changes. */
  lemma {:induction false} FarAttained(a: seq<string>, b: seq<string>, tables: seq<Table>, d: nat, k: int)
    returns (es: seq<Edit>)
    requires Rounds(a, b, tables) && d + 1 < |tables| && OnRow(d, k)
    ensures Attains(es, a, b, d, Far(tables, d, k), Far(tables, d, k) - k)
    decreases d, 1
  {
    var x := Entry(tables[d], d, k);
    es := EntryAttained(a, b, tables, d, k);
    es := SlideAttained(es, a, b, d, x, x - k, Slide(a, b, x, x - k));
    FarOfRound(a, b, tables, d, k);
  }

  lemma {:induction false} EntryAttained(a: seq<string>, b: seq<string>, tables: seq<Table>, d: nat, k: int)
    returns (es: seq<Edit>)
    requires Rounds(a, b, tables) && d < |tables| && OnRow(d, k)
    ensures Attains(es, a, b, d, Entry(tables[d], d, k), Entry(tables[d], d, k) - k)
    decreases d, 0
  {
    if d == 0 {
      es := [];
    } else {
      EntryFromNeighbour(a, b, tables, d, k);
      if ByInsert(tables[d], d, k) {
        var x := Far(tables, d - 1, k + 1);
        es := FarAttained(a, b, tables, d - 1, k + 1);
        es := InsertAttained(es, a, b, d - 1, x, x - (k + 1));
      } else {
        var x := Far(tables, d - 1, k - 1);
        es := FarAttained(a, b, tables, d - 1, k - 1);
        es := DeleteAttained(es, a, b, d - 1, x, x - (k - 1));
      }
    }
  }

  // ----- No script gets further -----

  /** A run of common lines stops only at a difference or at the end of a text. */
  lemma {:induction false} SlideStops(a: seq<string>, b: seq<string>, x: int, y: int)
    ensures var r := Slide(a, b, x, y); !(0 <= r < |a| && 0 <= y + r - x < |b| && a[r] == b[y + r - x])
    decreases |a| - x
  {
    if 0 <= x < |a| && 0 <= y < |b| && a[x] == b[y] {
      SlideStops(a, b, x + 1, y + 1);
    }
  }

  /** A common line on the diagonal is passed once the one before it is. */
  lemma SlideCovers(a: seq<string>, b: seq<string>, x: int, k: int, i: nat)
    requires i < |a| && 0 <= i - k < |b| && a[i] == b[i - k] && i <= Slide(a, b, x, x - k)
    ensures i + 1 <= Slide(a, b, x, x - k)
  {
    SlideStops(a, b, x, x - k);
  }

  /** What the last edit of a script adds to its two sides. */
  lemma LastEdit(es: seq<Edit>, a: seq<string>, b: seq<string>)
    requires es != [] && Fits(es, a, b)
    ensures var front, e := es[..|es| - 1], es[|es| - 1];
            && Fits(front, a, b)
            && |OldSide(front)| == |OldSide(es)| - (if e.Insert? then 0 else 1)
            && |NewSide(front)| == |NewSide(es)| - (if e.Delete? then 0 else 1)
            && Cost(front) == Cost(es) - (if e.Equal? then 0 else 1)
            && (e.Equal? ==> a[|OldSide(front)|] == b[|NewSide(front)|])
  {
    var front, e := es[..|es| - 1], es[|es| - 1];
    if e.Equal? {
      assert OldSide(es)[|OldSide(front)|] == e.line == NewSide(es)[|NewSide(front)|];
    }
  }

  /** No script of at most d changes gets further on its diagonal than round d does. */
  lemma {:induction false} FarDominates(a: seq<string>, b: seq<string>, tables: seq<Table>, d: nat, es: seq<Edit>, k: int)
    requires Rounds(a, b, tables) && d + 1 < |tables|
    requires Fits(es, a, b) && Cost(es) <= d
    requires k == |OldSide(es)| - |NewSide(es)| && OnRow(d, k)
    ensures |OldSide(es)| <= Far(tables, d, k)
    decreases d, |es|
  {
    FarOfRound(a, b, tables, d, k);
    if es == [] {
      var free := FarAttained(a, b, tables, d, k);
    } else {
      var front, e := es[..|es| - 1], es[|es| - 1];
      DiagonalParity(front);
      LastEdit(es, a, b);
      match e
      case Equal(_) =>
        FarDominates(a, b, tables, d, front, k);
        SlideCovers(a, b, Entry(tables[d], d, k), k, |OldSide(front)|);
      case Delete(_) =>
        EntryFromNeighbour(a, b, tables, d, k);
        FarDominates(a, b, tables, d - 1, front, k - 1);
      case Insert(_) =>
        EntryFromNeighbour(a, b, tables, d, k);
        FarDominates(a, b, tables, d - 1, front, k + 1);
    }
  }

  // ----- The search -----

  /** No script turning a into b has fewer than d changes. */
  ghost predicate NothingCheaper(a: seq<string>, b: seq<string>, d: int) {
    forall es :: Turns(es, a, b) ==> d <= Cost(es)
  }

  /** Position x on diagonal k is at or past both ends. */
  predicate Arrived(a: seq<string>, b: seq<string>, k: int, x: int) {
    |a| <= x && |b| <= x - k
  }

  /** A round that never reached both ends rules out scripts of its number of changes. */
  lemma RoundExcludes(a: seq<string>, b: seq<string>, tables: seq<Table>, d: nat)
    requires Rounds(a, b, tables) && d + 1 < |tables| && NothingCheaper(a, b, d)
    requires forall k | OnRow(d, k) :: !Arrived(a, b, k, Far(tables, d, k))
    ensures NothingCheaper(a, b, d + 1)
  {
    forall es | Turns(es, a, b) ensures d < Cost(es) {
      if Cost(es) == d {
        DiagonalParity(es);
        FarDominates(a, b, tables, d, es, |a| - |b|);
      }
    }
  }

  /** The first arrival at or past both ends is an arrival exactly at both ends. */
  lemma FirstArrivalIsExact(a: seq<string>, b: seq<string>, tables: seq<Table>, d: nat, k: int)
    requires Rounds(a, b, tables) && d < |tables| && OnRow(d, k) && NothingCheaper(a, b, d)
    requires Arrived(a, b, k, Reach(a, b, tables[d], d, k))
    ensures Reach(a, b, tables[d], d, k) == |a| && k == |a| - |b|
  {
    var x := Entry(tables[d], d, k);
    var es := EntryAttained(a, b, tables, d, k);
    es := SlideAttained(es, a, b, d, x, x - k, Slide(a, b, x, x - k));
    assert a[..|a|] == a && b[..|b|] == b;
    assert Turns(es, a, b);
  }

  /** Extends one diagonal of one round (src/git/gitReads.ts:1363-1374). */
  method Extend(v: Table, a: seq<string>, b: seq<string>, d: nat, k: int, work: Meter)
    returns (r: Result<int, GitError>)
    requires 0 <= Entry(v, d, k) && k <= Entry(v, d, k)
    modifies work
    ensures r.Success? ==> r.value == Reach(a, b, v, d, k)
    ensures r.Failure? ==> r.error == WorkLimitExceeded && work.value > GIT_MAX_DIFF_WORK
  {
    var x := Entry(v, d, k);
    var y := x - k;
    :- work.Charge();
    while x < |a| && y < |b| && a[x] == b[y]
      invariant 0 <= x && 0 <= y && y == x - k
      invariant Slide(a, b, x, y) == Reach(a, b, v, d, k)
      decreases |a| - x
    {
      :- work.Charge();
      x := x + 1;
      y := y + 1;
    }
    return Success(x);
  }

  /** Two tables agree on the diagonals that round d reads. */
  ghost predicate SameInput(v: Table, w: Table, d: int) {
    forall k {:trigger k in v} {:trigger k in w} | (d + k) % 2 == 1 :: (k in v <==> k in w) && (k in v ==> v[k] == w[k])
  }

  lemma SameEntry(v: Table, w: Table, d: int, k: int)
    requires SameInput(v, w, d) && OnRow(d, k)
    ensures Entry(v, d, k) == Entry(w, d, k)
  {
    assert (d + (k - 1)) % 2 == 1 && (d + (k + 1)) % 2 == 1;
  }

  /** The state inside a round: the row is in place below diagonal k, and no arrival so far. */
  ghost predicate InRound(a: seq<string>, b: seq<string>, before: Table, v: Table, d: nat, k: int) {
    && SameInput(v, before, d) && RoundBelow(a, b, before, v, d, k)
    && forall j | OnRow(d, j) && j < k :: !Arrived(a, b, j, Reach(a, b, before, d, j))
  }

  /** Filling in one more diagonal keeps the row and the input of the round. */
  lemma RowExtended(a: seq<string>, b: seq<string>, before: Table, v: Table, d: nat, k: int)
    requires OnRow(d, k) && InRound(a, b, before, v, d, k)
    requires !Arrived(a, b, k, Reach(a, b, before, d, k))
    ensures InRound(a, b, before, v[k := Reach(a, b, before, d, k)], d, k + 2)
  {
    var v' := v[k := Reach(a, b, before, d, k)];
    assert SameInput(v', before, d);
    assert RoundBelow(a, b, before, v', d, k + 2);
  }

  /** A round that ends without an arrival has recorded its row and excluded its number of changes. */
  lemma RoundCompleted(a: seq<string>, b: seq<string>, trace: seq<Table>, v: Table, d: nat)
    requires Rounds(a, b, trace) && d == |trace| - 1 && NothingCheaper(a, b, d)
    requires InRound(a, b, trace[d], v, d, d + 2)
    ensures Round(a, b, trace[d], v, d) && NothingCheaper(a, b, d + 1)
  {
    var tables := trace + [v];
    forall k | OnRow(d, k) ensures !Arrived(a, b, k, Far(tables, d, k)) {
      assert k < d + 2;
    }
    RoundExcludes(a, b, tables, d);
  }

  lemma EntryInRange(a: seq<string>, b: seq<string>, tables: seq<Table>, d: nat, k: int)
    requires Rounds(a, b, tables) && d < |tables| && OnRow(d, k)
    ensures 0 <= Entry(tables[d], d, k) && k <= Entry(tables[d], d, k)
  {
    var es := EntryAttained(a, b, tables, d, k);
  }

  /** One round over all its diagonals: stops at the first arrival (src/git/gitReads.ts:1363-1376). */
  method RunRound(v0: Table, a: seq<string>, b: seq<string>, d: nat, ghost trace: seq<Table>, work: Meter)
    returns (r: Result<(Table, bool), GitError>)
    requires Rounds(a, b, trace) && d == |trace| - 1 && trace[d] == v0 && NothingCheaper(a, b, d)
    modifies work
    ensures r.Success? && r.value.1 ==> OnRow(d, |a| - |b|) && Reach(a, b, v0, d, |a| - |b|) == |a|
    ensures r.Success? && !r.value.1 ==> Round(a, b, v0, r.value.0, d) && NothingCheaper(a, b, d + 1)
    ensures r.Failure? ==> r.error == WorkLimitExceeded && work.value > GIT_MAX_DIFF_WORK
  {
    var v := v0;
    var k: int := -(d as int);
    while k <= d
      invariant -(d as int) <= k <= d + 2 && (d + k) % 2 == 0
      invariant InRound(a, b, v0, v, d, k)
    {
      EntryInRange(a, b, trace, d, k);
      SameEntry(v, v0, d, k);
      var x :- Extend(v, a, b, d, k, work);
      if x >= |a| && x - k >= |b| {
        FirstArrivalIsExact(a, b, trace, d, k);
        return Success((v[k := x], true));
      }
      RowExtended(a, b, v0, v, d, k);
      v := v[k := x];
      k := k + 2;
    }
    RoundCompleted(a, b, trace, v, d);
    return Success((v, false));
  }

  /** Finds a shortest script (src/git/gitReads.ts:1345-1378); the final throw is dead code. */
  method Myers(a: seq<string>, b: seq<string>, work: Meter) returns (r: Result<seq<Edit>, GitError>)
    modifies work
    ensures r.Success? ==> Turns(r.value, a, b) && Minimal(r.value, a, b)
    ensures r.Failure? ==> r.error == WorkLimitExceeded && work.value > GIT_MAX_DIFF_WORK
  {
    var max := |a| + |b|;
    var v: Table := map[1 := 0];
    var trace: seq<Table> := [];
    var d: nat := 0;
    while d <= max
      invariant d <= max + 1 && |trace| == d
      invariant Rounds(a, b, trace + [v]) && NothingCheaper(a, b, d)
    {
      var snapshot :- Snapshot(v, work);
      trace := trace + [snapshot];
      var round :- RunRound(v, a, b, d, trace, work);
      if round.1 {
        r := Backtrack(trace, a, b, d, work);
        return;
      }
      v := round.0;
      d := d + 1;
    }
    RewriteScript(a, b);
    assert false;
  }

  // ----- The walk back -----

  /** A point of the walk back and the edits found so far, last first. */
  datatype Walk = Walk(x: nat, y: nat, out: seq<Edit>)

  /** The walk stands inside both texts and has found a script from there to the ends. */
  ghost predicate OnPath(w: Walk, a: seq<string>, b: seq<string>, cost: int) {
    && w.x <= |a| && w.y <= |b|
    && Turns(Reverse(w.out), a[w.x..], b[w.y..]) && Cost(Reverse(w.out)) == cost
  }

  function AfterEqual(w: Walk, a: seq<string>): Walk
    requires 0 < w.x <= |a| && 0 < w.y
  {
    Walk(w.x - 1, w.y - 1, w.out + [Equal(a[w.x - 1])])
  }

  function AfterDelete(w: Walk, a: seq<string>): Walk
    requires 0 < w.x <= |a|
  {
    Walk(w.x - 1, w.y, w.out + [Delete(a[w.x - 1])])
  }

  function AfterInsert(w: Walk, b: seq<string>): Walk
    requires 0 < w.y <= |b|
  {
    Walk(w.x, w.y - 1, w.out + [Insert(b[w.y - 1])])
  }

  /** An edit found on the walk back comes before those found already. */
  lemma FoundOne(out: seq<Edit>, e: Edit)
    ensures var es := Reverse(out + [e]);
            && OldSide(es) == (if e.Insert? then [] else [e.line]) + OldSide(Reverse(out))
            && NewSide(es) == (if e.Delete? then [] else [e.line]) + NewSide(Reverse(out))
            && Cost(es) == (if e.Equal? then 0 else 1) + Cost(Reverse(out))
  {
    assert (out + [e])[..|out|] == out;
    assert Reverse(out + [e]) == [e] + Reverse(out);
    SidesOfOne(e);
    SidesOfAppend([e], Reverse(out));
  }

  lemma EqualOnPath(w: Walk, a: seq<string>, b: seq<string>, cost: int)
    requires OnPath(w, a, b, cost) && 0 < w.x && 0 < w.y && a[w.x - 1] == b[w.y - 1]
    ensures OnPath(AfterEqual(w, a), a, b, cost)
  {
    FoundOne(w.out, Equal(a[w.x - 1]));
    DropNext(a, w.x - 1);
    DropNext(b, w.y - 1);
  }

  lemma DeleteOnPath(w: Walk, a: seq<string>, b: seq<string>, cost: int)
    requires OnPath(w, a, b, cost) && 0 < w.x
    ensures OnPath(AfterDelete(w, a), a, b, cost + 1)
  {
    FoundOne(w.out, Delete(a[w.x - 1]));
    DropNext(a, w.x - 1);
  }

  lemma InsertOnPath(w: Walk, a: seq<string>, b: seq<string>, cost: int)
    requires OnPath(w, a, b, cost) && 0 < w.y
    ensures OnPath(AfterInsert(w, b), a, b, cost + 1)
  {
    FoundOne(w.out, Insert(b[w.y - 1]));
    DropNext(b, w.y - 1);
  }

  ghost predicate IsReach(a: seq<string>, b: seq<string>, v: Table, d: nat, k: int, x: int) {
    OnRow(d, k) && x == Reach(a, b, v, d, k)
  }

  /** The walk stands where round d got furthest on its diagonal. */
  ghost predicate AtReach(w: Walk, a: seq<string>, b: seq<string>, v: Table, d: nat) {
    IsReach(a, b, v, d, w.x - w.y, w.x)
  }

  lemma ReachedPoint(w: Walk, a: seq<string>, b: seq<string>, v: Table, d: nat, k: int)
    requires w.x - w.y == k && IsReach(a, b, v, d, k, w.x)
    ensures AtReach(w, a, b, v, d)
  {
  }

  /** The texts agree on diagonal k from position low to position high of a. */
  ghost predicate Common(a: seq<string>, b: seq<string>, k: int, low: int, high: int) {
    forall i | low <= i < high && 0 <= i && 0 <= i - k :: i < |a| && i - k < |b| && a[i] == b[i - k]
  }

  /** A run of common lines consists of common lines. */
  lemma {:induction false} SlideMatches(a: seq<string>, b: seq<string>, x: int, y: int)
    ensures Common(a, b, x - y, x, Slide(a, b, x, y))
    decreases |a| - x
  {
    if 0 <= x < |a| && 0 <= y < |b| && a[x] == b[y] {
      SlideMatches(a, b, x + 1, y + 1);
    }
  }

  /** Walks back over common lines until a bound is met (src/git/gitReads.ts:1400-1404 and 1409-1413). */
  method WalkCommon(a: seq<string>, b: seq<string>, from: Walk, minX: nat, minY: nat, ghost meet: int, ghost cost: int,
                    work: Meter)
    returns (r: Result<Walk, GitError>)
    requires OnPath(from, a, b, cost) && minX <= from.x && minY <= from.y
    requires meet == Max(minX, minY + from.x - from.y) && Common(a, b, from.x - from.y, meet, from.x)
    modifies work
    ensures r.Success? ==> OnPath(r.value, a, b, cost)
    ensures r.Success? ==> r.value.x - r.value.y == from.x - from.y
    ensures r.Success? ==> r.value.x == meet
    ensures r.Failure? ==> r.error == WorkLimitExceeded && work.value > GIT_MAX_DIFF_WORK
  {
    var w := from;
    while w.x > minX && w.y > minY
      invariant meet <= w.x <= from.x && w.x - w.y == from.x - from.y
      invariant OnPath(w, a, b, cost)
      decreases w.x
    {
      :- work.Charge();
      assert a[w.x - 1] == b[w.x - 1 - (from.x - from.y)];
      EqualOnPath(w, a, b, cost);
      w := AfterEqual(w, a);
    }
    return Success(w);
  }

  /** The recorded table names the point that the round before reached. */
  lemma PreviousPoint(a: seq<string>, b: seq<string>, trace: seq<Table>, d: nat, k: int, previousK: int)
    requires Rounds(a, b, trace) && 0 < d < |trace| && OnRow(d, k)
    requires previousK == if ByInsert(trace[d], d, k) then k + 1 else k - 1
    ensures OnRow(d - 1, previousK)
    ensures Get(trace[d], previousK, 0) == Reach(a, b, trace[d - 1], d - 1, previousK)
    ensures 0 <= Get(trace[d], previousK, 0) && previousK <= Get(trace[d], previousK, 0)
    ensures Get(trace[d], previousK, 0) == Entry(trace[d], d, k) - (if previousK == k + 1 then 0 else 1)
    ensures var previousX := Get(trace[d], previousK, 0); Entry(trace[d], d, k) == Max(previousX, previousX - previousK + k)
  {
    EntryFromNeighbour(a, b, trace, d, k);
    FarOfRound(a, b, trace, d - 1, previousK);
    EntryInRange(a, b, trace, d - 1, previousK);
  }

  lemma CommonToReach(a: seq<string>, b: seq<string>, v: Table, d: nat, k: int)
    ensures Entry(v, d, k) <= Reach(a, b, v, d, k)
    ensures Common(a, b, k, Entry(v, d, k), Reach(a, b, v, d, k))
  {
    SlideMatches(a, b, Entry(v, d, k), Entry(v, d, k) - k);
  }

  /** The bounds of the walk over common lines, and where the change before it came from. */
  lemma StepFacts(a: seq<string>, b: seq<string>, trace: seq<Table>, d: nat, from: Walk, k: int, previousK: int, previousX: int,
                  meet: int)
    requires Rounds(a, b, trace) && 0 < d < |trace| && AtReach(from, a, b, trace[d], d) && k == from.x - from.y
    requires previousK == if ByInsert(trace[d], d, k) then k + 1 else k - 1
    requires previousX == Get(trace[d], previousK, 0) && meet == Max(previousX, previousX - previousK + k)
    ensures 0 <= previousX <= from.x && 0 <= previousX - previousK <= from.y
    ensures Common(a, b, k, meet, from.x)
    ensures meet == (if previousK == k + 1 then previousX else previousX + 1)
    ensures IsReach(a, b, trace[d - 1], d - 1, previousK, previousX)
  {
    PreviousPoint(a, b, trace, d, k, previousK);
    CommonToReach(a, b, trace[d], d, k);
  }

  /** Undoes the change by which a diagonal was entered. */
  method UndoChange(a: seq<string>, b: seq<string>, w: Walk, previousX: nat, ghost previousY: nat, ghost cost: int)
    returns (r: Walk)
    requires OnPath(w, a, b, cost)
    requires (w.x == previousX && w.y == previousY + 1) || (w.x == previousX + 1 && w.y == previousY)
    ensures OnPath(r, a, b, cost + 1) && r.x == previousX && r.y == previousY
  {
    if w.x == previousX {
      InsertOnPath(w, a, b, cost);
      r := AfterInsert(w, b);
    } else {
      DeleteOnPath(w, a, b, cost);
      r := AfterDelete(w, a);
    }
  }

  /**
   One round of the walk back: over the common lines, then over one change, to the
   point that the round before reached (src/git/gitReads.ts:1390-1408).
   */
  method StepBack(ghost trace: seq<Table>, v: Table, a: seq<string>, b: seq<string>, d: nat, from: Walk,
                  ghost cost: int, work: Meter)
    returns (r: Result<Walk, GitError>)
    requires Rounds(a, b, trace) && 0 < d < |trace| && v == trace[d]
    requires OnPath(from, a, b, cost) && AtReach(from, a, b, trace[d], d)
    modifies work
    ensures r.Success? ==> OnPath(r.value, a, b, cost + 1) && AtReach(r.value, a, b, trace[d - 1], d - 1)
    ensures r.Failure? ==> r.error == WorkLimitExceeded && work.value > GIT_MAX_DIFF_WORK
  {
    var k := from.x - from.y;
    var previousK := if ByInsert(v, d, k) then k + 1 else k - 1;
    var previousX := Get(v, previousK, 0);
    var previousY := previousX - previousK;
    ghost var meet := Max(previousX, previousY + from.x - from.y);
    StepFacts(a, b, trace, d, from, k, previousK, previousX, meet);
    var w :- WalkCommon(a, b, from, previousX, previousY, meet, cost, work);
    :- work.Charge();
    var next := UndoChange(a, b, w, previousX, previousY, cost);
    ReachedPoint(next, a, b, trace[d - 1], d - 1, previousK);
    return Success(next);
  }

  /** Walks the recorded rounds back from both ends (src/git/gitReads.ts:1379-1428). */
  method Backtrack(trace: seq<Table>, a: seq<string>, b: seq<string>, depth: nat, work: Meter)
    returns (r: Result<seq<Edit>, GitError>)
    requires depth < |trace| && Rounds(a, b, trace)
    requires OnRow(depth, |a| - |b|) && Reach(a, b, trace[depth], depth, |a| - |b|) == |a|
    modifies work
    ensures r.Success? ==> Turns(r.value, a, b) && Cost(r.value) == depth
    ensures r.Failure? ==> r.error == WorkLimitExceeded && work.value > GIT_MAX_DIFF_WORK
  {
    var w := Walk(|a|, |b|, []);
    var d: nat := depth;
    while d > 0
      invariant d <= depth && OnPath(w, a, b, depth - d) && AtReach(w, a, b, trace[d], d)
    {
      :- work.Charge();
      w :- StepBack(trace, trace[d], a, b, d, w, depth - d, work);
      d := d - 1;
    }
    SlideMatches(a, b, 0, 0);
    w :- WalkCommon(a, b, w, 0, 0, 0, depth, work);
    w :- WalkRest(a, b, w, depth, work);
    assert a[0..] == a && b[0..] == b;
    r := InOrder(w.out, work);
  }

  /** Whatever is left of either text; after a complete trace nothing is (src/git/gitReads.ts:1409-1421). */
  method WalkRest(a: seq<string>, b: seq<string>, from: Walk, ghost cost: int, work: Meter)
    returns (r: Result<Walk, GitError>)
    requires OnPath(from, a, b, cost)
    modifies work
    ensures r.Success? ==> r.value.x == 0 && r.value.y == 0 && OnPath(r.value, a, b, cost + from.x + from.y)
    ensures r.Failure? ==> r.error == WorkLimitExceeded && work.value > GIT_MAX_DIFF_WORK
  {
    var w := from;
    while w.x > 0
      invariant w.y == from.y && OnPath(w, a, b, cost + from.x - w.x)
      decreases w.x
    {
      :- work.Charge();
      DeleteOnPath(w, a, b, cost + from.x - w.x);
      w := AfterDelete(w, a);
    }
    while w.y > 0
      invariant w.x == 0 && OnPath(w, a, b, cost + from.x + from.y - w.y)
      decreases w.y
    {
      :- work.Charge();
      InsertOnPath(w, a, b, cost + from.x + from.y - w.y);
      w := AfterInsert(w, b);
    }
    return Success(w);
  }

  method InOrder(out: seq<Edit>, work: Meter) returns (r: Result<seq<Edit>, GitError>)
    modifies work
    ensures r.Success? ==> r.value == Reverse(out)
    ensures r.Failure? ==> r.error == WorkLimitExceeded && work.value > GIT_MAX_DIFF_WORK
  {
    var ordered: seq<Edit> := [];
    var index := |out| - 1;
    while index >= 0
      invariant -1 <= index < |out|
      invariant ordered == Reverse(out)[..|out| - 1 - index]
    {
      :- work.Charge();
      ordered := ordered + [out[index]];
      index := index - 1;
    }
    return Success(ordered);
  }
}
