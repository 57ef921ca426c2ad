/** What replication achieves: append requests, extending a log with them, and advancing the commit index. */
module RaftLogs {
  import opened Common
  import opened RaftMajority
  import opened RaftInterpreter

  /** The entries are in the log, right after its first `prev` entries. */
  predicate Installed(log: seq<nat>, prev: nat, entries: seq<nat>) {
    prev + |entries| <= |log| && log[prev..prev + |entries|] == entries
  }

  /** As far as the log and the request overlap, they agree. */
  predicate OverlapAgrees(log: seq<nat>, prev: nat, entries: seq<nat>) {
    forall k | 0 <= k < |entries| && prev + k < |log| :: log[prev + k] == entries[k]
  }

  /**
   Extending a log installs the request's entries exactly when the log reaches up to the request
   and agrees with it where they overlap.  A shorter log is extended with entries from the wrong
   end of the request, because its slice starts at a negative index.
   */
  lemma ExtendInstallsIff(st: State, m: Message)
    requires Callable(st, Receive(m, AppendExtend))
    ensures var prev, entries := m.body.prev, m.body.entries;
            var log, log' := st.nodes[m.dst].log, ApplyReceive(st, m, AppendExtend).nodes[m.dst].log;
            Installed(log', prev, entries) <==> |log| >= prev && OverlapAgrees(log, prev, entries)
  {
    var prev, entries := m.body.prev, m.body.entries;
    var log, log' := st.nodes[m.dst].log, ApplyReceive(st, m, AppendExtend).nodes[m.dst].log;
    assert log' == log + SliceFrom(entries, |log| - prev);
    if |log| >= prev {
      ExtendedAt(log, log', prev, entries);
    } else {
      assert |SliceFrom(entries, |log| - prev)| <= prev - |log|;
    }
  }

  lemma ExtendedAt(log: seq<nat>, log': seq<nat>, prev: nat, entries: seq<nat>)
    requires |log| >= prev && log' == log + SliceFrom(entries, |log| - prev)
    ensures |log'| >= prev + |entries|
    ensures forall k | 0 <= k < |entries| :: log'[prev + k] == if prev + k < |log| then log[prev + k] else entries[k]
    ensures Installed(log', prev, entries) <==> OverlapAgrees(log, prev, entries)
  {
    forall k | 0 <= k < |entries|
      ensures log'[prev + k] == if prev + k < |log| then log[prev + k] else entries[k]
      ensures log'[prev..prev + |entries|][k] == log'[prev + k]
    {
    }
  }

  /** A node whose log is a prefix of the sender's and reaches up to the request ends with exactly the longer prefix. */
  lemma ReplicaFollowsLeader(st: State, m: Message, leader: Node, begin: nat, end: nat)
    requires Callable(st, Receive(m, AppendExtend)) && 1 <= begin && 1 <= end && begin - 1 <= |leader.log|
    requires exists mode :: m == AppendMessage(leader, m.src, m.dst, mode, begin, end)
    requires st.nodes[m.dst].log <= leader.log && begin - 1 <= |st.nodes[m.dst].log|
    ensures var log, log' := st.nodes[m.dst].log, ApplyReceive(st, m, AppendExtend).nodes[m.dst].log;
            log' == leader.log[..Max(|log|, Min(|leader.log|, end - 1))]
  {
    var log, last := st.nodes[m.dst].log, Min(|leader.log|, end - 1);
    assert m.body.prev == begin - 1 && m.body.entries == if begin - 1 <= last then leader.log[begin - 1..last] else [];
    ExtendPrefix(log, leader.log, begin - 1, last);
  }

  lemma ExtendPrefix(log: seq<nat>, full: seq<nat>, prev: nat, last: nat)
    requires log <= full && prev <= |log| && last <= |full|
    ensures log + SliceFrom(if prev <= last then full[prev..last] else [], |log| - prev) == full[..Max(|log|, last)]
  {
    if |log| < last {
      assert full[prev..last][|log| - prev..] == full[|log|..last];
      assert log + full[|log|..last] == full[..last];
    }
  }

  /**
   The commit index moves only to an index that more than half of the voters have matched, whose
   entry is of the node's own term, and beyond which no index is so matched; otherwise it stays.
   */
  lemma CommitMovesToAgreed(st: State, i: nat)
    requires i in st.nodes
    ensures var n, n' := st.nodes[i], Apply(st, AdvanceCommit(i)).nodes[i];
            && n' == n.(commit := n'.commit) && n'.commit >= n.commit
            && (n'.commit > n.commit ==>
                  && n'.commit <= |n.log| && n.log[n'.commit - 1] == n.term
                  && 2 * |Reached(n.matched, n'.commit)| > |n.matched|
                  && forall k | n'.commit < k <= |n.log| ::
                       2 * |Reached(n.matched, k)| <= |n.matched|)
            && (n'.commit == n.commit ==>
                  forall k | n.commit < k <= |n.log| && Agreed(n.matched, k) ::
                    exists k' | k <= k' <= |n.log| :: Agreed(n.matched, k') && n.log[k' - 1] != n.term)
  {
    var n := st.nodes[i];
    var top := MaxAgreed(n.matched, |n.log|);
    if top > 0 && n.log[top - 1] != n.term {
      assert Agreed(n.matched, top);
    }
    forall k: nat
      ensures Agreed(n.matched, k) <==> 2 * |Reached(n.matched, k)| > |n.matched|
    {
      AgreedIsMajority(n.matched, k);
    }
  }

  /** The commit index does reach the largest majority-matched index when its entry is of the node's own term. */
  lemma CommitReachesMajority(st: State, i: nat, k: nat)
    requires i in st.nodes
    requires var n := st.nodes[i];
             && 0 < k <= |n.log| && n.log[k - 1] == n.term
             && 2 * |Reached(n.matched, k)| > |n.matched|
             && forall l | k < l <= |n.log| ::
                  2 * |Reached(n.matched, l)| <= |n.matched|
    ensures var n := st.nodes[i];
            Apply(st, AdvanceCommit(i)).nodes[i] == n.(commit := if k > n.commit then k else n.commit)
  {
    var n := st.nodes[i];
    forall l: nat
      ensures Agreed(n.matched, l) <==> 2 * |Reached(n.matched, l)| > |n.matched|
    {
      AgreedIsMajority(n.matched, l);
    }
    assert MaxAgreed(n.matched, |n.log|) == k;
  }

  /** ... and stays when that entry is of another term. */
  lemma CommitWaitsForOwnTerm(st: State, i: nat, k: nat)
    requires i in st.nodes
    requires var n := st.nodes[i];
             && 0 < k <= |n.log| && n.log[k - 1] != n.term
             && 2 * |Reached(n.matched, k)| > |n.matched|
             && forall l | k < l <= |n.log| ::
                  2 * |Reached(n.matched, l)| <= |n.matched|
    ensures Apply(st, AdvanceCommit(i)) == st
  {
    var n := st.nodes[i];
    forall l: nat
      ensures Agreed(n.matched, l) <==> 2 * |Reached(n.matched, l)| > |n.matched|
    {
      AgreedIsMajority(n.matched, l);
    }
    assert MaxAgreed(n.matched, |n.log|) == k;
  }

  lemma {:induction false} CountFalls(matched: seq<nat>, k: nat, k': nat)
    requires k <= k'
    ensures CountAtLeast(matched, k') <= CountAtLeast(matched, k)
  {
    if matched != [] {
      CountFalls(matched[1..], k, k');
    }
  }

  /** Agreement is downward closed, so the largest agreed index bounds a prefix on which all indices are agreed. */
  lemma AgreedPrefix(matched: seq<nat>, top: nat, k: nat)
    requires 1 <= k <= top
    ensures Agreed(matched, k) <==> k <= MaxAgreed(matched, top)
  {
    if k <= MaxAgreed(matched, top) {
      CountFalls(matched, k, MaxAgreed(matched, top));
    }
  }
}
