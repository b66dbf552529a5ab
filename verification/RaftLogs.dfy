/** Facts about logs alone: what it means for two logs to agree, and what the follower's
    append loop does to a log that already shares a prefix with the leader's. */
module RaftLogs {
  import opened RaftServer

  /** Both logs reach index k and hold the same entries up to it. */
  ghost predicate Agree(a: Log, b: Log, k: nat) {
    k < |a| && k < |b| && forall j :: 0 <= j <= k ==> a[j] == b[j]
  }

  ghost predicate Extends(a: Log, b: Log) {
    |a| <= |b| && forall j :: 0 <= j < |a| ==> a[j] == b[j]
  }

  /** Wherever the terms agree, everything before agrees too. */
  ghost predicate Matching(a: Log, b: Log) {
    forall k :: 0 <= k < |a| && k < |b| && a[k].term == b[k].term ==> Agree(a, b, k)
  }

  lemma AgreeTrans(a: Log, b: Log, c: Log, k: nat)
    requires Agree(a, b, k) && Agree(b, c, k)
    ensures Agree(a, c, k) && Agree(c, a, k)
  {
  }

  /** Appending what comes next in L to a prefix of L gives a longer prefix of L. */
  lemma {:induction false} AppendPrefix(L: Log, idx: nat, n: nat)
    requires 1 <= idx <= n <= |L|
    ensures AppendNew(L[..idx], idx, L[idx..n]) == L[..n]
    decreases n - idx
  {
    if idx < n {
      assert L[idx..n][0] == L[idx] && L[idx..n][1..] == L[idx + 1..n];
      assert L[..idx] + [L[idx]] == L[..idx + 1];
      AppendPrefix(L, idx + 1, n);
    }
  }

  /** The append loop against a leader log L: the result holds L up to n, is either the old log
      untouched or exactly that prefix of L, and loses nothing that already agreed with L. */
  lemma {:induction false} AppendMerges(log: Log, L: Log, idx: nat, n: nat)
    requires 1 <= idx <= n <= |L| && Agree(log, L, idx - 1) && Matching(log, L)
    ensures var r := AppendNew(log, idx, L[idx..n]);
            && Agree(r, L, n - 1)
            && (r == log || r == L[..n])
            && forall k: nat :: Agree(log, L, k) ==> Agree(r, L, k)
    decreases n - idx
  {
    hide Agree, Matching;
    if idx < n {
      assert L[idx..n][0] == L[idx] && L[idx..n][1..] == L[idx + 1..n];
      if idx < |log| && log[idx].term == L[idx].term {
        AgreeAt(log, L, idx);
        AppendMerges(log, L, idx + 1, n);
      } else {
        AppendsOne(log, L, idx);
        AppendPrefix(L, idx + 1, n);
        KeptByPrefix(log, L, idx, n);
        PrefixAgrees(L, n);
      }
    }
  }

  lemma AgreeAt(log: Log, L: Log, idx: nat)
    requires Matching(log, L) && idx < |log| && idx < |L| && log[idx].term == L[idx].term
    ensures Agree(log, L, idx)
  {
  }

  lemma AppendsOne(log: Log, L: Log, idx: nat)
    requires 1 <= idx < |L| && Agree(log, L, idx - 1) && (idx >= |log| || log[idx].term != L[idx].term)
    ensures AppendOne(log, idx, L[idx]) == L[..idx + 1]
  {
  }

  lemma PrefixAgrees(L: Log, n: nat)
    requires 1 <= n <= |L|
    ensures Agree(L[..n], L, n - 1)
  {
  }

  lemma KeptByPrefix(log: Log, L: Log, idx: nat, n: nat)
    requires 1 <= idx < n <= |L|
    requires idx >= |log| || log[idx] != L[idx]
    ensures forall k: nat :: Agree(log, L, k) ==> Agree(L[..n], L, k)
  {
    forall k: nat | Agree(log, L, k) ensures Agree(L[..n], L, k) {
      assert k < idx;
    }
  }
}
