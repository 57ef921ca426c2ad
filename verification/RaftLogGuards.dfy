/**
 The exact conditions, with safe elections: logs match in every run under the first four log guards
 and no others, and committed entries never conflict under all five and no fewer.
 */
module RaftLogGuards {
  import opened Common
  import opened RaftInterpreter
  import opened RaftElection
  import opened RaftReplication
  import opened RaftCommits
  import opened RaftLogRuns

  // ---------- the exact conditions ----------

  /** In every state two logs agree up to any index where they have the same entry. */
  ghost predicate LogsMatch(b: seq<State>) {
    forall k, i, j, x: nat
      | 0 <= k < |b| && i in b[k].nodes && j in b[k].nodes && x < |b[k].nodes[i].log| && x < |b[k].nodes[j].log|
        && b[k].nodes[i].log[x] == b[k].nodes[j].log[x] ::
      b[k].nodes[i].log[..x + 1] == b[k].nodes[j].log[..x + 1]
  }

  ghost predicate EveryRunMatches(lg: LogGuards) {
    forall n: nat, b: seq<State>, acts: seq<Action> | IsLoggedRun(lg, n, b, acts) :: LogsMatch(b)
  }

  ghost predicate EveryRunCommitsSafely(lg: LogGuards) {
    forall n: nat, b: seq<State>, acts: seq<Action> | IsLoggedRun(lg, n, b, acts) :: CommitsAgree(b)
  }

  lemma MismatchIsSeen(b: seq<State>, n: nat, s: nat, d: nat, p: seq<nat>, q: seq<nat>)
    requires |b| > 0 && Mismatched(b[|b| - 1], n, s, d, p, q)
    ensures !LogsMatch(b)
  {
    var x := |p| - 1;
    assert p[..x + 1] == p && q[..x + 1] == q;
    assert b[|b| - 1].nodes[s].log[x] == b[|b| - 1].nodes[d].log[x];
  }

  /** With safe elections, logs match in every run if and only if the first four log guards are respected. */
  lemma LogMatchingIffGuards(lg: LogGuards)
    ensures EveryRunMatches(lg) <==> MatchGuards(lg)
  {
    if MatchGuards(lg) {
      forall n: nat, b: seq<State>, acts: seq<Action> | IsLoggedRun(lg, n, b, acts)
        ensures LogsMatch(b)
      {
        RunMatches(lg, n, b, acts);
      }
    } else {
      var st, n, s, d, p, q := SomeMismatch(lg);
      var b, acts :| IsLoggedRun(lg, n, b, acts) && b[|b| - 1] == st;
      MismatchIsSeen(b, n, s, d, p, q);
    }
  }

  lemma RunMatches(lg: LogGuards, n: nat, b: seq<State>, acts: seq<Action>)
    requires IsLoggedRun(lg, n, b, acts) && MatchGuards(lg)
    ensures LogsMatch(b)
  {
    forall k, i, j, x: nat
      | 0 <= k < |b| && i in b[k].nodes && j in b[k].nodes && x < |b[k].nodes[i].log| && x < |b[k].nodes[j].log|
        && b[k].nodes[i].log[x] == b[k].nodes[j].log[x]
      ensures b[k].nodes[i].log[..x + 1] == b[k].nodes[j].log[..x + 1]
    {
      LogMatching(lg, n, b, acts, k, i, j, x);
    }
  }

  lemma ConflictIsSeen(b: seq<State>, s: nat, d: nat, p: seq<nat>, q: seq<nat>)
    requires |b| > 0 && s in b[|b| - 1].nodes && d in b[|b| - 1].nodes && |p| == |q| && p != q
    requires var x, y := b[|b| - 1].nodes[s], b[|b| - 1].nodes[d];
             x.log == p && y.log == q && x.commit == y.commit == |p|
    ensures !CommitsAgree(b)
  {
    var last := |b| - 1;
    assert p[..|p|] == p && q[..|q|] == q;
    assert !Comparable(Committed(b[last].nodes[s]), Committed(b[last].nodes[d]));
  }

  lemma ReachableKeys(lg: LogGuards, n: nat, st: State)
    requires LogReachable(lg, n, st)
    ensures st.nodes.Keys == Ids(n)
  {
    var b, acts :| IsLoggedRun(lg, n, b, acts) && b[|b| - 1] == st;
    RunElectionInv(n, b, acts, |b| - 1);
  }

  /** With safe elections, committed entries never conflict if and only if all five log guards are respected. */
  lemma CommitSafetyIffAllGuards(lg: LogGuards)
    ensures EveryRunCommitsSafely(lg) <==> lg == ALL_LOG_GUARDS
  {
    if lg == ALL_LOG_GUARDS {
      forall n: nat, b: seq<State>, acts: seq<Action> | IsLoggedRun(lg, n, b, acts)
        ensures CommitsAgree(b)
      {
        StateMachineSafety(n, b, acts);
      }
    } else {
      var st, n, s, d, p, q := SomeConflict(lg);
      ReachableKeys(lg, n, st);
      var st' := ConflictCommits(lg, n, st, s, d, p, q);
      var b, acts :| IsLoggedRun(lg, n, b, acts) && b[|b| - 1] == st';
      ConflictIsSeen(b, s, d, p, q);
    }
  }
}
