/** Knuth-Morris-Pratt search with an exact count of its comparisons (src/repository/repositoryReads.ts:769-821). */
module LiteralSearch {
  import opened Wrappers

  const REPOSITORY_MAX_LINES_AND_MATCHES: nat := 200_000

  datatype SearchError = WorkExceeded | Cancelled

  /** The outcome of matching one character: whether it continues the candidate of this length. */
  datatype Step = Step(equal: bool, matched: nat)

  // ----- What is searched for -----

  predicate OccursAt(query: string, text: string, i: nat) {
    i + |query| <= |text| && text[i..i + |query|] == query
  }

  /** The first `k` characters of the query are the last `k` before position `i` of the text. */
  predicate Matches(text: string, i: nat, query: string, k: nat) {
    k <= i <= |text| && k <= |query| && text[i - k..i] == query[..k]
  }

  predicate IsBorder(query: string, n: nat, k: nat) {
    k < n <= |query| && query[n - k..n] == query[..k]
  }

  /** The longest proper border of the first `n` characters. */
  ghost predicate LongestBorder(query: string, n: nat, k: nat) {
    IsBorder(query, n, k) && forall j: nat :: IsBorder(query, n, j) ==> j <= k
  }

  /** Every match that could be continued by the next character is no longer than `k`. */
  ghost predicate NoLonger(text: string, i: nat, query: string, k: nat) {
    i < |text| && forall j: nat :: Matches(text, i, query, j) && k < j < |query| ==> text[i] != query[j]
  }

  ghost predicate Longest(text: string, i: nat, query: string, k: nat) {
    Matches(text, i, query, k) && forall j: nat :: Matches(text, i, query, j) ==> j <= k
  }

  // ----- Falling back and going on -----

  lemma ShorterMatchIsBorder(text: string, i: nat, query: string, m: nat, k: nat)
    requires Matches(text, i, query, m) && k < m
    ensures Matches(text, i, query, k) <==> IsBorder(query, m, k)
  {
    assert text[i - k..i] == text[i - m..i][m - k..];
    assert query[m - k..m] == query[..m][m - k..];
  }

  /** After a mismatch the longest border is the next candidate: nothing in between matches. */
  lemma FallBack(text: string, i: nat, query: string, m: nat, b: nat)
    requires Matches(text, i, query, m) && m < |query| && i < |text| && text[i] != query[m]
    requires NoLonger(text, i, query, m) && LongestBorder(query, m, b)
    ensures Matches(text, i, query, b) && NoLonger(text, i, query, b)
  {
    ShorterMatchIsBorder(text, i, query, m, b);
    forall j: nat | Matches(text, i, query, j) && b < j < |query| ensures text[i] != query[j] {
      if j < m {
        ShorterMatchIsBorder(text, i, query, m, j);
      }
    }
  }

  lemma Extension(text: string, i: nat, query: string, k: nat)
    requires i < |text| && k < |query|
    ensures Matches(text, i + 1, query, k + 1) <==> Matches(text, i, query, k) && text[i] == query[k]
  {
    if k <= i {
      assert text[i - k..i + 1] == text[i - k..i] + [text[i]];
      assert query[..k + 1] == query[..k] + [query[k]];
    }
  }

  /** The next character extends the candidate, or there is no match at all. */
  lemma GoOn(text: string, i: nat, query: string, m: nat, equal: bool)
    requires Matches(text, i, query, m) && m < |query| && NoLonger(text, i, query, m)
    requires equal <==> text[i] == query[m]
    requires equal || m == 0
    ensures Longest(text, i + 1, query, if equal then m + 1 else 0)
  {
    var next := i + 1;
    Extension(text, i, query, m);
    forall j: nat | Matches(text, next, query, j) ensures j <= if equal then m + 1 else 0 {
      if 0 < j {
        Extension(text, i, query, j - 1);
      }
    }
  }

  lemma OccurrenceIsMatch(query: string, text: string, i: nat)
    requires i + |query| <= |text|
    ensures OccursAt(query, text, i) <==> Matches(text, i + |query|, query, |query|)
  {
    assert query[..|query|] == query;
  }

  /** A border of a prefix of the query is a match of the query with its own rest. */
  lemma BorderIsMatch(query: string, n: nat, k: nat)
    requires 0 < n <= |query|
    ensures IsBorder(query, n, k) <==> Matches(query[1..], n - 1, query, k)
  {
    if k < n {
      assert query[1..][n - 1 - k..n - 1] == query[n - k..n];
    }
  }

  lemma LongestIsLongest(query: string, n: nat, k: nat)
    requires 0 < n <= |query|
    ensures LongestBorder(query, n, k) <==> Longest(query[1..], n - 1, query, k)
  {
    var i := n - 1;
    forall j: nat ensures IsBorder(query, n, j) <==> Matches(query[1..], i, query, j) {
      BorderIsMatch(query, n, j);
    }
  }

  /** The candidate after the next character of the query is the next entry of the table. */
  lemma NextEntry(query: string, index: nat, m: nat, equal: bool)
    requires 0 < index < |query| && m < |query|
    requires Matches(query[1..], index - 1, query, m) && NoLonger(query[1..], index - 1, query, m)
    requires (equal <==> query[1..][index - 1] == query[m]) && (equal || m == 0)
    ensures Longest(query[1..], index, query, if equal then m + 1 else 0)
    ensures LongestBorder(query, index + 1, if equal then m + 1 else 0)
  {
    GoOn(query[1..], index - 1, query, m, equal);
    LongestIsLongest(query, index + 1, if equal then m + 1 else 0);
  }

  // ----- The search -----

  class BoundedLiteralSearch {
    const query: string
    const prefix: array<nat>
    var work: nat

    constructor (query: string)
      ensures this.query == query && prefix.Length == |query| && fresh(prefix) && work == 0
    {
      this.query := query;
      this.prefix := new nat[|query|];
      work := 0;
    }

    ghost predicate TableUpTo(n: nat)
      reads prefix
    {
      prefix.Length == |query| && n <= |query| && forall i | 0 <= i < n :: LongestBorder(query, i + 1, prefix[i])
    }

    /** The failure table holds the longest border of every prefix of the query. */
    ghost predicate Valid()
      reads prefix
    {
      TableUpTo(|query|)
    }

    method Charge() returns (r: Outcome<SearchError>)
      modifies this`work
      ensures r.Pass? ==> work == old(work) + 1 <= REPOSITORY_MAX_LINES_AND_MATCHES
      ensures r == Fail(WorkExceeded) ==> work == old(work) + 1 > REPOSITORY_MAX_LINES_AND_MATCHES
      ensures r == Fail(Cancelled) ==> work == old(work) && work % 256 == 0
      ensures old(work) <= work
    {
      var active: bool := *;
      if work % 256 == 0 && !active {
        return Fail(Cancelled);
      }
      work := work + 1;
      if work > REPOSITORY_MAX_LINES_AND_MATCHES {
        return Fail(WorkExceeded);
      }
      return Pass;
    }

    /** No character equals one beyond the end of a text. */
    method Equal(left: string, leftIndex: nat, right: string, rightIndex: nat) returns (r: Result<bool, SearchError>)
      modifies this`work
      ensures r.Success? ==> work == old(work) + 1
      ensures r.Success? ==> r.value == (leftIndex < |left| && rightIndex < |right| && left[leftIndex] == right[rightIndex])
      ensures r == Failure(WorkExceeded) ==> work == old(work) + 1 > REPOSITORY_MAX_LINES_AND_MATCHES
      ensures r == Failure(Cancelled) ==> work == old(work) && work % 256 == 0
      ensures old(work) <= work
    {
      var same := leftIndex < |left| && rightIndex < |right| && left[leftIndex] == right[rightIndex];
      :- Charge();
      return Success(same);
    }

    /** The longest candidate that the next character continues; each step back is paid for by a shorter candidate. */
    method Advance(ghost text: string, c: string, index: nat, i: nat, candidate: nat)
      returns (r: Result<Step, SearchError>)
      requires i < |text| && index < |c| && text[i] == c[index]
      requires Longest(text, i, query, candidate) && candidate < |query| && TableUpTo(candidate)
      modifies this`work
      ensures r.Success? ==>
        var Step(equal, matched) := r.value;
        && Matches(text, i, query, matched) && matched <= candidate && NoLonger(text, i, query, matched)
        && (equal <==> text[i] == query[matched]) && (equal || matched == 0)
        && work + matched <= old(work) + candidate + 1
      ensures r == Failure(WorkExceeded) ==> old(work) + candidate + 1 > REPOSITORY_MAX_LINES_AND_MATCHES
      ensures r == Failure(Cancelled) ==> work % 256 == 0 && work <= old(work) + candidate
      ensures old(work) <= work
    {
      var matched: nat := candidate;
      var equal :- Equal(c, index, query, matched);
      while !equal && matched > 0
        invariant Matches(text, i, query, matched) && matched <= candidate && NoLonger(text, i, query, matched)
        invariant equal <==> text[i] == query[matched]
        invariant work + matched <= old(work) + candidate + 1 && old(work) <= work
      {
        FallBack(text, i, query, matched, prefix[matched - 1]);
        matched := prefix[matched - 1];
        equal :- Equal(c, index, query, matched);
      }
      return Success(Step(equal, matched));
    }

    method Record(index: nat, border: nat)
      requires TableUpTo(index) && index < |query| && LongestBorder(query, index + 1, border)
      modifies prefix
      ensures TableUpTo(index + 1)
    {
      prefix[index] := border;
    }

    /** The rest of the constructor; its work is linear in the length of the query. */
    method BuildTable() returns (r: Result<(), SearchError>)
      requires prefix.Length == |query|
      modifies this`work, prefix
      ensures r.Success? ==> Valid() && work <= old(work) + 2 * (if |query| == 0 then 0 else |query| - 1)
      ensures r == Failure(WorkExceeded) ==> old(work) + 2 * (|query| - 1) > REPOSITORY_MAX_LINES_AND_MATCHES
      ensures r == Failure(Cancelled) ==> work % 256 == 0 && old(work) <= work < old(work) + 2 * (|query| - 1)
    {
      if |query| == 0 {
        return Success(());
      }
      ghost var rest := query[1..];
      LongestIsLongest(query, 1, 0);
      Record(0, 0);
      var matched: nat := 0;
      for index := 1 to |query|
        invariant TableUpTo(index) && Longest(rest, index - 1, query, matched) && matched < index
        invariant work + matched <= old(work) + 2 * (index - 1) && old(work) <= work
      {
        matched :- Extend(rest, index, matched);
      }
      return Success(());
    }

    /** One more entry of the table. */
    method Extend(ghost rest: string, index: nat, candidate: nat) returns (r: Result<nat, SearchError>)
      requires 0 < index < |query| && rest == query[1..]
      requires TableUpTo(index) && Longest(rest, index - 1, query, candidate) && candidate < index
      modifies this`work, prefix
      ensures r.Success? ==>
        && TableUpTo(index + 1) && Longest(rest, index, query, r.value) && r.value <= index
        && work + r.value <= old(work) + candidate + 2
      ensures r == Failure(WorkExceeded) ==> old(work) + candidate + 1 > REPOSITORY_MAX_LINES_AND_MATCHES
      ensures r == Failure(Cancelled) ==> work % 256 == 0 && work <= old(work) + candidate
      ensures old(work) <= work
    {
      var step: Step :- Advance(rest, query, index, index - 1, candidate);
      NextEntry(query, index, step.matched, step.equal);
      var matched := if step.equal then step.matched + 1 else 0;
      Record(index, matched);
      return Success(matched);
    }

    /** The search for an empty query: every character is compared with one beyond its end. */
    method FindNothing(text: string) returns (r: Result<int, SearchError>)
      requires query == ""
      modifies this`work
      ensures r.Success? ==> r.value == -1 && work == old(work) + |text|
      ensures r == Failure(WorkExceeded) ==> old(work) + |text| > REPOSITORY_MAX_LINES_AND_MATCHES
      ensures r == Failure(Cancelled) ==> work % 256 == 0 && old(work) <= work < old(work) + |text|
    {
      for index := 0 to |text|
        invariant work == old(work) + index
      {
        var equal :- Equal(text, index, query, 0);
      }
      return Success(-1);
    }

    /** The least position at which the query occurs, or -1; an empty query is never found. The work is linear in the text. */
    method Find(text: string) returns (r: Result<int, SearchError>)
      requires Valid()
      modifies this`work
      ensures r.Success? ==> r.value == -1 || 0 <= r.value
      ensures r.Success? && r.value == -1 ==> query == "" || forall i: nat :: !OccursAt(query, text, i)
      ensures r.Success? && 0 <= r.value ==>
        query != "" && OccursAt(query, text, r.value) && forall i: nat :: OccursAt(query, text, i) ==> r.value <= i
      ensures r.Success? ==> work <= old(work) + 2 * |text|
      ensures r == Failure(WorkExceeded) ==> old(work) + 2 * |text| > REPOSITORY_MAX_LINES_AND_MATCHES
      ensures r == Failure(Cancelled) ==> work % 256 == 0 && old(work) <= work < old(work) + 2 * |text|
    {
      if query == "" {
        r := FindNothing(text);
        return;
      }
      var matched: nat := 0;
      for index := 0 to |text|
        invariant Longest(text, index, query, matched) && matched < |query|
        invariant forall i: nat :: OccursAt(query, text, i) ==> index < i + |query|
        invariant work + matched <= old(work) + 2 * index && old(work) <= work
      {
        var step :- Advance(text, text, index, index, matched);
        GoOn(text, index, query, step.matched, step.equal);
        forall i: nat | OccursAt(query, text, i) && i + |query| == index + 1 ensures step.equal && step.matched + 1 == |query| {
          OccurrenceIsMatch(query, text, i);
        }
        if step.equal {
          matched := step.matched + 1;
          if matched == |query| {
            OccurrenceIsMatch(query, text, index + 1 - |query|);
            return Success(index + 1 - |query|);
          }
        } else {
          matched := step.matched;
        }
      }
      return Success(-1);
    }
  }
}
