/** The work budget of one diff (src/git/gitReads.ts:42-56 and 1429-1437). */
module GitWork {
  import opened Wrappers

  const GIT_MAX_DIFF_WORK := 200_000
  const GIT_MAX_PATCH_BYTES := 1024 * 1024

  datatype GitError = WorkLimitExceeded | PatchTooLarge

  class Meter {
    var value: nat

    constructor ()
      ensures value == 0
    {
      value := 0;
    }

    /** One unit of work; refuses as soon as the budget is exceeded. */
    method Charge() returns (o: Outcome<GitError>)
      modifies this
      ensures value == old(value) + 1
      ensures o == if value > GIT_MAX_DIFF_WORK then Fail(WorkLimitExceeded) else Pass
    {
      value := value + 1;
      if value > GIT_MAX_DIFF_WORK {
        return Fail(WorkLimitExceeded);
      }
      return Pass;
    }
  }

  /** The copy of the table that a round records, charged entry by entry (src/git/gitReads.ts:1357-1362). */
  method Snapshot<K, V>(v: map<K, V>, work: Meter) returns (r: Result<map<K, V>, GitError>)
    modifies work
    ensures r.Success? ==> r.value == v
    ensures r.Failure? ==> r.error == WorkLimitExceeded && work.value > GIT_MAX_DIFF_WORK
  {
    var copy: map<K, V> := map[];
    var left: set<K> := v.Keys;
    while left != {}
      invariant left <= v.Keys
      invariant copy.Keys == v.Keys - left
      invariant forall k | k in copy :: copy[k] == v[k]
      decreases left
    {
      var k :| k in left;
      :- work.Charge();
      copy := copy[k := v[k]];
      left := left - {k};
    }
    return Success(copy);
  }
}
