/** Reading the journal back: from the entries found to one history for each transaction (src/phase3/journal.ts:408-451, 494-531). */
module Phase3Histories {
  import opened Wrappers
  import opened Phase3Contracts
  import opened Phase3Journal

  datatype ScanError = EntryLimit | RecordLimit | AggregateLimit | TransactionLimit | HistoryLimit | Illegal

  function IdOf(r: Record): string {
    r.identity.transactionId
  }

  function AsSet(s: seq<Record>): set<Record> {
    set r | r in s
  }

  predicate Ascending(h: seq<Record>) {
    forall i, j | 0 <= i < j < |h| :: h[i].version < h[j].version
  }

  /** The entries of one transaction, by version. */
  ghost predicate Arranges(h: seq<Record>, f: seq<Record>, id: string) {
    Ascending(h) && forall r :: r in h <==> r in f && IdOf(r) == id
  }

  ghost predicate IsHistory(h: seq<Record>, f: seq<Record>, id: string) {
    h != [] && ValidHistory(h) && Arranges(h, f, id)
  }

  predicate DistinctKeys(f: seq<Record>) {
    forall i, j | 0 <= i < j < |f| :: !SameKey(f[i], f[j])
  }

  /** The entries are exactly the records of the histories. */
  ghost predicate Rebuilt(f: seq<Record>, histories: map<string, seq<Record>>) {
    && (forall id | id in histories :: IsHistory(histories[id], f, id))
    && (forall r | r in f :: IdOf(r) in histories)
  }

  // ----- Arranging -----

  function Insert(h: seq<Record>, r: Record): (s: seq<Record>)
    requires Ascending(h) && forall q | q in h :: q.version != r.version
    ensures Ascending(s) && forall q :: q in s <==> q == r || q in h
  {
    if h == [] then [r]
    else if r.version < h[0].version then [r] + h
    else
      var rest := Insert(h[1..], r);
      assert forall q | q in rest :: h[0].version < q.version;
      assert forall q :: q in h <==> q == h[0] || q in h[1..];
      [h[0]] + rest
  }

  /** Records sorted by version. */
  function Sorted(s: seq<Record>): (h: seq<Record>)
    requires forall i, j | 0 <= i < j < |s| :: s[i].version != s[j].version
    ensures Ascending(h) && forall q :: q in h <==> q in s
  {
    if s == [] then [] else
      var n := |s| - 1;
      assert forall q :: q in s <==> q == s[n] || q in s[..n];
      Insert(Sorted(s[..n]), s[n])
  }

  /** The records of one transaction, in the order in which they were found. */
  function OfTransaction(f: seq<Record>, id: string): (s: seq<Record>)
    ensures forall r :: r in s <==> r in f && IdOf(r) == id
    ensures DistinctKeys(f) ==> forall i, j | 0 <= i < j < |s| :: s[i].version != s[j].version
  {
    if f == [] then []
    else
      var n := |f| - 1;
      var s := OfTransaction(f[..n], id);
      assert forall r :: r in f <==> r == f[n] || r in f[..n];
      if IdOf(f[n]) == id then
        assert DistinctKeys(f) ==> forall q | q in s :: q.version != f[n].version by {
          forall q | DistinctKeys(f) && q in s ensures q.version != f[n].version {
            var i :| 0 <= i < n && f[..n][i] == q;
          }
        }
        s + [f[n]]
      else s
  }

  // ----- Entries that are accepted form valid histories -----

  lemma {:induction false} PredecessorsExist(f: set<Record>, r: Record, v: nat) returns (q: Record)
    requires Accepted(f) && r in f && v <= r.version
    ensures q in f && IdOf(q) == IdOf(r) && q.version == v
    decreases r.version
  {
    q := r;
    if v < r.version {
      assert Rooted(f, r);
      var p :| p in f && IsSuccessor(p, r);
      q := PredecessorsExist(f, p, v);
    }
  }

  lemma {:induction false} NoGaps(f: seq<Record>, h: seq<Record>, id: string, i: nat)
    requires Accepted(AsSet(f)) && Arranges(h, f, id) && i < |h|
    ensures h[i].version == i
  {
    forall j | 0 <= j < i ensures h[j].version == j {
      NoGaps(f, h, id, j);
    }
    if 0 < i {
      assert h[i - 1].version < h[i].version;
    }
    if i < h[i].version {
      assert h[i] in h;
      var q := PredecessorsExist(AsSet(f), h[i], i);
      assert false;
    }
  }

  lemma ArrangedIsValid(f: seq<Record>, h: seq<Record>, id: string)
    requires Accepted(AsSet(f)) && Arranges(h, f, id)
    ensures ValidHistory(h)
  {
    forall i | 0 <= i < |h| ensures h[i].version == i && Rooted(AsSet(f), h[i]) {
      NoGaps(f, h, id, i);
      assert h[i] in h;
    }
    forall i | 0 < i < |h| ensures IsSuccessor(h[i - 1], h[i]) {
      assert Rooted(AsSet(f), h[i]);
      assert h[i] in h;
      var p :| p in AsSet(f) && IsSuccessor(p, h[i]);
      assert p in h;
      var k :| 0 <= k < |h| && h[k] == p;
      assert h[k].version == k;
    }
  }

  /** Conversely, entries that form valid histories are accepted by every later scan. */
  lemma RebuiltIsAccepted(f: seq<Record>, histories: map<string, seq<Record>>)
    requires Rebuilt(f, histories)
    ensures Accepted(AsSet(f))
  {
    forall r | r in AsSet(f) ensures Rooted(AsSet(f), r) {
      var h := histories[IdOf(r)];
      assert r in h;
      var i :| 0 <= i < |h| && h[i] == r;
      if 0 < i {
        Adjacent(h, i);
        assert h[i - 1] in h;
      }
    }
  }

  // ----- The scan -----

  lemma HistoryGrows(h: seq<Record>, r: Record)
    requires ValidHistory(h) && SchemaOk(r) && r.version == |h|
    requires if h == [] then IsInitial(r) else IsSuccessor(h[|h| - 1], r)
    ensures ValidHistory(h + [r])
  {
    var t := h + [r];
    forall i | 0 < i < |t| ensures IsSuccessor(t[i - 1], t[i]) {
      if i < |h| {
        Adjacent(h, i);
      }
    }
  }

  /** src/phase3/journal.ts:511-524 */
  method CheckHistory(records: seq<Record>) returns (r: Outcome<ScanError>)
    requires forall q | q in records :: SchemaOk(q)
    ensures r.Pass? <==> ValidHistory(records) && |records| <= HISTORY_PER_TRANSACTION
  {
    if |records| > HISTORY_PER_TRANSACTION {
      return Fail(HistoryLimit);
    }
    for index := 0 to |records|
      invariant ValidHistory(records[..index])
    {
      var record := records[index];
      if record.version != index
         || (index == 0 && !IsInitial(record)) || (0 < index && !IsSuccessor(records[index - 1], record)) {
        if ValidHistory(records) && 0 < index {
          Adjacent(records, index);
        }
        return Fail(Illegal);
      }
      HistoryGrows(records[..index], record);
      assert records[..index + 1] == records[..index] + [record];
    }
    assert records[..|records|] == records;
    return Pass;
  }

  ghost predicate Groups(f: seq<Record>, groups: map<string, seq<Record>>) {
    && (forall id | id in groups :: groups[id] != [] && groups[id] == OfTransaction(f, id))
    && (forall id | id !in groups :: OfTransaction(f, id) == [])
  }

  lemma OfTransactionNext(f: seq<Record>, r: Record, id: string)
    ensures OfTransaction(f + [r], id) == OfTransaction(f, id) + if IdOf(r) == id then [r] else []
  {
    assert (f + [r])[..|f|] == f;
  }

  function Add(groups: map<string, seq<Record>>, r: Record): map<string, seq<Record>> {
    groups[IdOf(r) := (if IdOf(r) in groups then groups[IdOf(r)] else []) + [r]]
  }

  lemma GroupsGrow(f: seq<Record>, i: nat, groups: map<string, seq<Record>>)
    requires i < |f| && Groups(f[..i], groups)
    ensures Groups(f[..i + 1], Add(groups, f[i]))
  {
    var r := f[i];
    assert f[..i + 1] == f[..i] + [r];
    forall id: string
      ensures OfTransaction(f[..i + 1], id) == OfTransaction(f[..i], id) + if IdOf(r) == id then [r] else []
    {
      OfTransactionNext(f[..i], r, id);
    }
  }

  /** src/phase3/journal.ts:498-504 */
  method Group(finals: seq<Record>) returns (groups: map<string, seq<Record>>)
    ensures Groups(finals, groups)
  {
    groups := map[];
    for i := 0 to |finals|
      invariant Groups(finals[..i], groups)
    {
      GroupsGrow(finals, i, groups);
      groups := Add(groups, finals[i]);
    }
    assert finals[..|finals|] == finals;
  }

  /** The number of transactions among the entries. */
  function Ids(f: seq<Record>): set<string> {
    set r | r in f :: IdOf(r)
  }

  /** src/phase3/journal.ts:509-528, for one transaction */
  method Arrange(finals: seq<Record>, records: seq<Record>, id: string) returns (r: Result<seq<Record>, ScanError>)
    requires DistinctKeys(finals) && forall q | q in finals :: SchemaOk(q)
    requires records != [] && records == OfTransaction(finals, id)
    ensures r.Success? ==> IsHistory(r.value, finals, id)
    ensures r.Failure? ==> !Accepted(AsSet(finals))
  {
    var h := Sorted(records);
    assert records[0] in h;
    assert Arranges(h, finals, id);
    var check := CheckHistory(h);
    if check.Fail? {
      if Accepted(AsSet(finals)) {
        ArrangedIsValid(finals, h, id);
        HistoryBounded(h);
        assert false;
      }
      return Failure(check.error);
    }
    return Success(h);
  }

  /**
   Succeeds exactly if the entries are acceptable and not of too many transactions; the histories are
   then made of exactly these entries. No valid history is too long.
   */
  method BuildHistories(finals: seq<Record>) returns (r: Result<map<string, seq<Record>>, ScanError>)
    requires DistinctKeys(finals) && forall q | q in finals :: SchemaOk(q)
    ensures r.Success? <==> Accepted(AsSet(finals)) && |Ids(finals)| <= TRANSACTIONS
    ensures r.Success? ==> Rebuilt(finals, r.value)
  {
    var groups := Group(finals);
    GroupIds(finals, groups);
    if |groups.Keys| > TRANSACTIONS {
      return Failure(TransactionLimit);
    }
    var histories: map<string, seq<Record>> := map[];
    var open := groups.Keys;
    while open != {}
      invariant open <= groups.Keys && histories.Keys == groups.Keys - open
      invariant forall id | id in histories :: IsHistory(histories[id], finals, id)
      decreases |open|
    {
      var id :| id in open;
      var h :- Arrange(finals, groups[id], id);
      histories := histories[id := h];
      open := open - {id};
    }
    assert Rebuilt(finals, histories) by {
      forall r | r in finals ensures IdOf(r) in histories {
        assert IdOf(r) in Ids(finals);
      }
    }
    RebuiltIsAccepted(finals, histories);
    return Success(histories);
  }

  lemma GroupIds(finals: seq<Record>, groups: map<string, seq<Record>>)
    requires Groups(finals, groups)
    ensures groups.Keys == Ids(finals)
  {
    forall id | id in groups ensures id in Ids(finals) {
      assert groups[id][0] in groups[id];
    }
    forall r | r in finals ensures IdOf(r) in groups {
      assert r in OfTransaction(finals, IdOf(r));
    }
  }

  /**
   The accounting of a scan, given the sizes of the entries (src/phase3/journal.ts:422-436). Its last
   check can never fail: the limits before it leave no room.
   */
  method AccountBytes(sizes: seq<nat>) returns (r: Result<nat, ScanError>)
    ensures r.Success? <==> |sizes| <= FINAL_ENTRIES && forall i | 0 <= i < |sizes| :: sizes[i] <= RECORD_BYTES
    ensures r != Failure(AggregateLimit)
  {
    var aggregate := 0;
    for i := 0 to |sizes|
      invariant i <= FINAL_ENTRIES && 0 <= aggregate <= i * RECORD_BYTES
      invariant forall k | 0 <= k < i :: sizes[k] <= RECORD_BYTES
    {
      if i >= FINAL_ENTRIES {
        return Failure(EntryLimit);
      }
      if sizes[i] > RECORD_BYTES {
        return Failure(RecordLimit);
      }
      aggregate := aggregate + sizes[i];
      if aggregate > AGGREGATE_BYTES {
        return Failure(AggregateLimit);
      }
    }
    return Success(aggregate);
  }
}
