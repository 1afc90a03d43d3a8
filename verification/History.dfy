/** Histories of a compare-and-swap store: any number of clients load, compute and swap, in any order. */
module History {
  /** One transaction: a value is created at revision 0, replaced by one with the next revision, or nothing
      changes. */
  ghost predicate Step<K(!new), V(!new)>(rev: V -> int, before: map<K, V>, after: map<K, V>) {
    after == before || exists key: K, v: V :: Writes(rev, before, after, key, v)
  }

  ghost predicate Writes<K, V>(rev: V -> int, before: map<K, V>, after: map<K, V>, key: K, v: V) {
    after == before[key := v] && rev(v) == if key in before then rev(before[key]) + 1 else 0
  }

  ghost predicate IsRun<K(!new), V(!new)>(rev: V -> int, run: seq<map<K, V>>) {
    forall i :: 0 <= i < |run| - 1 ==> Step(rev, run[i], run[i + 1])
  }

  lemma {:induction false} RunExtends<K(!new), V(!new)>(rev: V -> int, run: seq<map<K, V>>, n: nat)
    requires 0 < n < |run| && IsRun(rev, run[..n]) && Step(rev, run[n - 1], run[n])
    ensures IsRun(rev, run[..n + 1])
  {
  }

  lemma {:induction false} StepKeeps<K(!new), V(!new)>(rev: V -> int, before: map<K, V>, after: map<K, V>, key: K)
    requires Step(rev, before, after) && key in before
    ensures key in after && (after[key] == before[key] || rev(after[key]) == rev(before[key]) + 1)
  {
  }

  /** Revisions never go back, and a key that kept its revision kept its value: there is only one value per
      revision. */
  lemma {:induction false} RevisionDetermines<K(!new), V(!new)>(rev: V -> int, run: seq<map<K, V>>, key: K, i: nat, j: nat)
    requires IsRun(rev, run) && i <= j < |run| && key in run[i]
    ensures key in run[j] && rev(run[i][key]) <= rev(run[j][key])
    ensures rev(run[i][key]) == rev(run[j][key]) ==> run[i][key] == run[j][key]
    decreases j - i
  {
    if i < j {
      RevisionDetermines(rev, run, key, i, j - 1);
      assert Step(rev, run[j - 1], run[j - 1 + 1]);
      StepKeeps(rev, run[j - 1], run[j], key);
    }
  }

  /** A key's revisions in a run form an unbroken chain: every revision between two observed ones was the
      current one at some time in between. */
  lemma {:induction false} NoRevisionSkipped<K(!new), V(!new)>(rev: V -> int, run: seq<map<K, V>>, key: K, i: nat, j: nat, r: int)
    requires IsRun(rev, run) && i <= j < |run| && key in run[i]
    requires forall n :: i <= n <= j ==> key in run[n]
    requires rev(run[i][key]) <= r <= rev(run[j][key])
    ensures exists n :: i <= n <= j && rev(run[n][key]) == r
    decreases j - i
  {
    if r < rev(run[j][key]) {
      assert Step(rev, run[j - 1], run[j - 1 + 1]);
      StepKeeps(rev, run[j - 1], run[j], key);
      NoRevisionSkipped(rev, run, key, i, j - 1, r);
    }
  }
}
