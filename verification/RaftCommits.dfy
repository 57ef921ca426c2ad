/**
 State machine safety: whatever two nodes have committed, at any two moments of a run, one is a
 prefix of the other.  Committed entries themselves, not just their number, are in the logs of more
 than half of the voters.
 */
module RaftCommits {
  import opened Common
  import opened RaftMajority
  import opened RaftInterpreter
  import opened RaftElection
  import opened RaftLogs
  import opened RaftReplication

  // ---------- entries that more than half of the voters hold ----------

  /** The voters whose logs start with these entries. */
  function Holders(n: nat, st: State, entries: seq<nat>): set<nat> {
    set v | v in Ids(n) && v in st.nodes && entries <= st.nodes[v].log
  }

  predicate Held(n: nat, st: State, entries: seq<nat>) {
    2 * |Holders(n, st, entries)| > n
  }

  /** The first k entries are the same in both logs. */
  predicate Shared(p: seq<nat>, q: seq<nat>, k: nat) {
    k <= |p| && k <= |q| && p[..k] == q[..k]
  }

  lemma SharedGrows(p: seq<nat>, q: seq<nat>, p': seq<nat>, q': seq<nat>, k: nat)
    requires Shared(p, q, k) && p <= p' && q <= q'
    ensures Shared(p', q', k)
  {
    assert p'[..k] == p[..k] && q'[..k] == q[..k];
  }

  lemma SmallerSet(p: set<nat>, q: set<nat>)
    requires p <= q
    ensures |p| <= |q|
  {
    assert q == p + (q - p);
  }

  lemma HeldGrows(n: nat, st: State, st': State, entries: seq<nat>)
    requires Held(n, st, entries) && Grows(st, st')
    ensures Held(n, st', entries)
  {
    forall v | v in Holders(n, st, entries)
      ensures v in Holders(n, st', entries)
    {
      assert entries <= st.nodes[v].log <= st'.nodes[v].log;
    }
    SmallerSet(Holders(n, st, entries), Holders(n, st', entries));
  }

  lemma HeldPrefix(n: nat, st: State, entries: seq<nat>, fewer: seq<nat>)
    requires Held(n, st, entries) && fewer <= entries
    ensures Held(n, st, fewer)
  {
    forall v | v in Holders(n, st, entries)
      ensures v in Holders(n, st, fewer)
    {
      assert fewer <= entries <= st.nodes[v].log;
    }
    SmallerSet(Holders(n, st, entries), Holders(n, st, fewer));
  }

  /** Two lists of entries that more than half of the voters hold are comparable. */
  lemma HeldComparable(n: nat, st: State, p: seq<nat>, q: seq<nat>)
    requires Held(n, st, p) && Held(n, st, q)
    ensures p <= q || q <= p
  {
    var v := MajoritiesMeet(n, Holders(n, st, p), Holders(n, st, q));
    var log := st.nodes[v].log;
    assert p == log[..|p|] && q == log[..|q|];
    if |p| <= |q| {
      assert p == q[..|p|];
    } else {
      assert q == p[..|q|];
    }
  }

  /** As many voters as match index k are among those who hold the entries. */
  lemma {:induction false} CountWithin(matched: seq<nat>, k: nat, off: nat, voters: set<nat>)
    requires forall j | 0 <= j < |matched| && matched[j] >= k :: off + j + 1 in voters
    ensures CountAtLeast(matched, k) <= |voters|
    decreases matched
  {
    if matched != [] {
      var fewer := if matched[0] >= k then voters - {off + 1} else voters;
      forall j | 0 <= j < |matched[1..]| && matched[1..][j] >= k
        ensures (off + 1) + j + 1 in fewer
      {
        assert matched[j + 1] >= k;
        assert off + (j + 1) + 1 in voters;
      }
      CountWithin(matched[1..], k, off + 1, fewer);
      if matched[0] >= k {
        assert off + 0 + 1 in voters;
        assert voters == fewer + {off + 1};
      }
    }
  }

  // ---------- the invariant ----------

  predicate VoterShares(st: State, log: seq<nat>, v: nat, k: nat) {
    v in st.nodes && Shared(log, st.nodes[v].log, k)
  }

  predicate AllShared(n: nat, st: State, log: seq<nat>, matched: seq<nat>) {
    |matched| == n && forall j {:trigger matched[j]} | 0 <= j < n :: VoterShares(st, log, j + 1, matched[j])
  }

  predicate CommitHeld(n: nat, st: State, log: seq<nat>, commit: nat) {
    commit <= |log| && Held(n, st, log[..commit])
  }

  predicate NodeOk(n: nat, st: State, i: nat)
    requires i in st.nodes
  {
    var node := st.nodes[i];
    AllShared(n, st, node.log, node.matched) && CommitHeld(n, st, node.log, node.commit)
  }

  predicate MessageOk(n: nat, st: State, m: Message) {
    && m.src in st.nodes
    && (m.body.AppendResponse? ==> VoterShares(st, st.nodes[m.src].log, m.dst, m.body.matched))
    && (m.body.AppendRequest? ==> CommitHeld(n, st, st.nodes[m.src].log, m.body.commit))
  }

  /** Matched and acknowledged entries are shared; committed ones are held by more than half of the voters. */
  predicate CommitInv(n: nat, st: State) {
    && st.nodes.Keys == Ids(n)
    && (forall i {:trigger NodeOk(n, st, i)} | i in st.nodes :: NodeOk(n, st, i))
    && (forall m {:trigger MessageOk(n, st, m)} | m in st.pending + st.messages :: MessageOk(n, st, m))
  }

  lemma AgreedIsHeld(n: nat, st: State, log: seq<nat>, matched: seq<nat>, k: nat)
    requires st.nodes.Keys == Ids(n) && AllShared(n, st, log, matched) && Agreed(matched, k) && k <= |log|
    ensures CommitHeld(n, st, log, k)
  {
    forall j | 0 <= j < n && matched[j] >= k
      ensures 0 + j + 1 in Holders(n, st, log[..k])
    {
      assert VoterShares(st, log, j + 1, matched[j]);
      var other := st.nodes[j + 1].log;
      assert log[..k] == log[..matched[j]][..k] == other[..matched[j]][..k] == other[..k];
    }
    CountWithin(matched, k, 0, Holders(n, st, log[..k]));
  }

  // ---------- what a step changes ----------

  /** A finished request leaves its sender's and its receiver's log the same up to its last entry. */
  predicate FinishShares(st: State, a: Action)
    requires Callable(st, a)
  {
    match a
    case Receive(m, AppendDone) => VoterShares(st, st.nodes[m.dst].log, m.src, m.body.prev + |m.body.entries|)
    case _ => true
  }

  /** Where a new commit index comes from: it was agreed, or it was sent with a request. */
  lemma CommitChange(st: State, a: Action, i: nat)
    requires Callable(st, a) && !Raises(st, a) && i in st.nodes
    requires i in Apply(st, a).nodes && Apply(st, a).nodes[i].commit != st.nodes[i].commit
    ensures var c := Apply(st, a).nodes[i].commit;
            if a.AdvanceCommit? then c <= |st.nodes[i].log| && Agreed(st.nodes[i].matched, c)
            else && a.Receive? && a.how == AppendDone && a.m.dst == i
                 && c <= a.m.body.commit && c <= a.m.body.prev + |a.m.body.entries|
  {
  }

  /** Where a matched index comes from: it was there, is 0, is the length of the node's own log, or was acknowledged. */
  lemma MatchedChange(n: nat, st: State, a: Action, i: nat, j: nat)
    requires Callable(st, a) && !Raises(st, a) && i in st.nodes && i in Apply(st, a).nodes
    requires |st.nodes[i].matched| == n && j < n
    ensures var matched, was := Apply(st, a).nodes[i].matched, st.nodes[i].matched;
            && |matched| == n
            && ( || matched[j] == was[j] || matched[j] == 0
                 || (matched[j] == |st.nodes[i].log| && j + 1 == i)
                 || (&& a.Receive? && a.how == TakeAppendResponse && a.m.dst == i && a.m.src == j + 1
                     && matched[j] == a.m.body.matched))
  {
  }

  lemma CommitStays(n: nat, st: State, a: Action, i: nat)
    requires st.nodes.Keys == Ids(n) && Callable(st, a) && !Raises(st, a) && FinishShares(st, a)
    requires i in st.nodes && i in Apply(st, a).nodes
    requires NodeOk(n, st, i) && (a.Receive? ==> MessageOk(n, st, a.m))
    ensures CommitHeld(n, st, st.nodes[i].log, Apply(st, a).nodes[i].commit)
  {
    var c := Apply(st, a).nodes[i].commit;
    if c != st.nodes[i].commit {
      CommitChange(st, a, i);
      if a.AdvanceCommit? {
        AgreedIsHeld(n, st, st.nodes[i].log, st.nodes[i].matched, c);
      } else {
        CommitFromRequest(n, st, st.nodes[i].log, st.nodes[a.m.src].log, a.m.body, c);
      }
    }
  }

  lemma CommitFromRequest(n: nat, st: State, log: seq<nat>, sender: seq<nat>, body: Body, c: nat)
    requires body.AppendRequest? && CommitHeld(n, st, sender, body.commit)
    requires Shared(log, sender, body.prev + |body.entries|)
    requires c <= body.commit && c <= body.prev + |body.entries|
    ensures CommitHeld(n, st, log, c)
  {
    var upto := body.prev + |body.entries|;
    assert log[..c] == log[..upto][..c] == sender[..upto][..c] == sender[..c];
    HeldPrefix(n, st, sender[..body.commit], sender[..c]);
  }

  lemma SharedSource(n: nat, st: State, a: Action, i: nat, j: nat)
    requires st.nodes.Keys == Ids(n) && Callable(st, a) && !Raises(st, a) && j < n
    requires i in st.nodes && i in Apply(st, a).nodes
    requires AllShared(n, st, st.nodes[i].log, st.nodes[i].matched) && (a.Receive? ==> MessageOk(n, st, a.m))
    ensures |Apply(st, a).nodes[i].matched| == n
    ensures VoterShares(st, st.nodes[i].log, j + 1, Apply(st, a).nodes[i].matched[j])
  {
    MatchedChange(n, st, a, i, j);
    assert VoterShares(st, st.nodes[i].log, j + 1, st.nodes[i].matched[j]);
  }

  lemma OneStaysShared(n: nat, st: State, a: Action, st': State, i: nat, j: nat)
    requires st.nodes.Keys == Ids(n) && Callable(st, a) && !Raises(st, a) && st' == Apply(st, a) && Grows(st, st')
    requires i in st.nodes && j < n
    requires AllShared(n, st, st.nodes[i].log, st.nodes[i].matched) && (a.Receive? ==> MessageOk(n, st, a.m))
    ensures i in st'.nodes && |st'.nodes[i].matched| == n
    ensures VoterShares(st', st'.nodes[i].log, j + 1, st'.nodes[i].matched[j])
  {
    SharedSource(n, st, a, i, j);
    VoterStillShares(st, st', i, j + 1, st'.nodes[i].matched[j]);
  }

  lemma NodeStaysOk(n: nat, st: State, a: Action, st': State, i: nat)
    requires st.nodes.Keys == Ids(n) && Callable(st, a) && !Raises(st, a) && st' == Apply(st, a) && Grows(st, st')
    requires FinishShares(st, a) && i in st.nodes && n > 0
    requires NodeOk(n, st, i) && (a.Receive? ==> MessageOk(n, st, a.m))
    ensures i in st'.nodes && NodeOk(n, st', i)
  {
    OneStaysShared(n, st, a, st', i, 0);
    forall j: nat | j < n
      ensures VoterShares(st', st'.nodes[i].log, j + 1, st'.nodes[i].matched[j])
    {
      OneStaysShared(n, st, a, st', i, j);
    }
    CommitStays(n, st, a, i);
    CommitStillHeld(n, st, st', i, st'.nodes[i].commit);
  }

  lemma VoterStillShares(st: State, st': State, i: nat, v: nat, k: nat)
    requires Grows(st, st') && i in st.nodes && VoterShares(st, st.nodes[i].log, v, k)
    ensures VoterShares(st', st'.nodes[i].log, v, k)
  {
    SharedGrows(st.nodes[i].log, st.nodes[v].log, st'.nodes[i].log, st'.nodes[v].log, k);
  }

  lemma CommitStillHeld(n: nat, st: State, st': State, i: nat, c: nat)
    requires Grows(st, st') && i in st.nodes && CommitHeld(n, st, st.nodes[i].log, c)
    ensures CommitHeld(n, st', st'.nodes[i].log, c)
  {
    var log, log' := st.nodes[i].log, st'.nodes[i].log;
    assert log <= log' && log'[..c] == log[..c];
    HeldGrows(n, st, st', log[..c]);
  }

  lemma MessageStaysOk(n: nat, st: State, st': State, m: Message)
    requires Grows(st, st') && MessageOk(n, st, m)
    ensures MessageOk(n, st', m)
  {
    if m.body.AppendResponse? {
      VoterStillShares(st, st', m.src, m.dst, m.body.matched);
    } else if m.body.AppendRequest? {
      CommitStillHeld(n, st, st', m.src, m.body.commit);
    }
  }

  /** What a new message claims about its sender. */
  lemma NewMessageShape(st: State, a: Action)
    requires Callable(st, a) && !Raises(st, a) && NewMessage(st, a).Some?
    ensures var m, node := NewMessage(st, a).value, st.nodes[Actor(a)];
            && m.src == Actor(a)
            && (m.body.AppendRequest? ==> m.body.commit <= node.commit)
            && (m.body.AppendResponse? ==>
                  if a.Receive?
                  then a.how == AppendDone && m.dst == a.m.src && m.body.matched == a.m.body.prev + |a.m.body.entries|
                  else m.dst == m.src && m.body.matched == |node.log|)
  {
  }

  lemma NewMessageOk(n: nat, st: State, a: Action)
    requires Callable(st, a) && !Raises(st, a) && FinishShares(st, a) && NewMessage(st, a).Some?
    requires CommitHeld(n, st, st.nodes[Actor(a)].log, st.nodes[Actor(a)].commit)
    ensures MessageOk(n, st, NewMessage(st, a).value)
  {
    NewMessageShape(st, a);
    var m, node := NewMessage(st, a).value, st.nodes[Actor(a)];
    if m.body.AppendRequest? {
      HeldPrefix(n, st, node.log[..node.commit], node.log[..m.body.commit]);
    }
  }

  lemma AnyMessageOk(n: nat, st: State, a: Action, st': State, m: Message)
    requires CommitInv(n, st) && Callable(st, a) && !Raises(st, a) && st' == Apply(st, a) && Grows(st, st')
    requires FinishShares(st, a) && (m in st'.pending || m in st'.messages)
    ensures MessageOk(n, st', m)
  {
    OldOrNew(st, a, m);
    if NewMessage(st, a) == Some(m) {
      assert NodeOk(n, st, Actor(a));
      NewMessageOk(n, st, a);
    } else {
      assert MessageOk(n, st, m);
    }
    MessageStaysOk(n, st, st', m);
  }

  lemma StepKeepsCommitInv(n: nat, st: State, a: Action, st': State)
    requires CommitInv(n, st) && Step(ALL_GUARDS, n, st, a, st') && FinishShares(st, a)
    ensures CommitInv(n, st')
  {
    StepGrows(ALL_GUARDS, n, st, a, st');
    if a.Receive? {
      assert a.m in st.pending + st.messages;
      assert MessageOk(n, st, a.m);
    }
    forall i | i in st'.nodes
      ensures NodeOk(n, st', i)
    {
      assert NodeOk(n, st, i);
      NodeStaysOk(n, st, a, st', i);
    }
    forall m | m in st'.pending + st'.messages
      ensures MessageOk(n, st', m)
    {
      AnyMessageOk(n, st, a, st', m);
    }
  }

  // ---------- whole runs ----------

  /** Requests quote their sender, so where the receiver holds what is quoted the two logs match. */
  lemma FinishedShares(n: nat, b: seq<State>, acts: seq<Action>, k: nat, m: Message)
    requires IsLoggedRun(ALL_LOG_GUARDS, n, b, acts) && k < |acts| && acts[k] == Receive(m, AppendDone)
    ensures Callable(b[k], acts[k]) && FinishShares(b[k], acts[k])
  {
    var prev, entries := m.body.prev, m.body.entries;
    assert LogAllowed(ALL_LOG_GUARDS, b[k], acts[k]);
    RequestQuotes(ALL_GUARDS, n, b, acts, k, m);
    QuotedTwice(b[k].nodes[m.dst].log, b[k].nodes[m.src].log, m.body);
    if prev + |entries| > 0 {
      LogMatching(ALL_LOG_GUARDS, n, b, acts, k, m.dst, m.src, prev + |entries| - 1);
    }
  }

  lemma QuotedTwice(p: seq<nat>, q: seq<nat>, body: Body)
    requires body.AppendRequest? && Quotes(p, body) && Quotes(q, body)
    ensures var upto := body.prev + |body.entries|;
            upto <= |p| && upto <= |q| && (upto > 0 ==> p[upto - 1] == q[upto - 1])
  {
    var prev, entries := body.prev, body.entries;
    if entries != [] {
      assert p[prev..prev + |entries|][|entries| - 1] == q[prev..prev + |entries|][|entries| - 1];
    }
  }

  lemma InitialCommitInv(n: nat, st: State)
    requires st == Initial(n)
    ensures CommitInv(n, st)
  {
    forall i | i in st.nodes
      ensures NodeOk(n, st, i)
    {
      assert st.nodes[i] == InitialNode(n);
      assert Holders(n, st, []) == Ids(n);
    }
  }

  /** Under all guards, matched and acknowledged entries are shared and committed ones held by a majority. */
  lemma {:induction false} RunCommitInv(n: nat, b: seq<State>, acts: seq<Action>, k: nat)
    requires IsLoggedRun(ALL_LOG_GUARDS, n, b, acts) && k < |b|
    ensures CommitInv(n, b[k])
  {
    if k == 0 {
      InitialCommitInv(n, b[k]);
    } else {
      RunCommitInv(n, b, acts, k - 1);
      NthStep(ALL_GUARDS, n, b, acts, k - 1);
      var a := acts[k - 1];
      if a.Receive? && a.how == AppendDone {
        FinishedShares(n, b, acts, k - 1, a.m);
      }
      StepKeepsCommitInv(n, b[k - 1], a, b[k]);
    }
  }

  /** What one node has committed at some moment is from then on the start of more than half of the logs. */
  lemma CommittedStaysHeld(n: nat, b: seq<State>, acts: seq<Action>, k: nat, k': nat, i: nat)
    requires IsLoggedRun(ALL_LOG_GUARDS, n, b, acts) && k <= k' < |b| && i in b[k].nodes
    ensures var node := b[k].nodes[i];
            node.commit <= |node.log| && Held(n, b[k'], node.log[..node.commit])
  {
    RunCommitInv(n, b, acts, k);
    assert NodeOk(n, b[k], i);
    RunGrows(ALL_GUARDS, n, b, acts, k, k');
    var node := b[k].nodes[i];
    HeldGrows(n, b[k], b[k'], node.log[..node.commit]);
  }

  /** What a node has committed. */
  function Committed(node: Node): seq<nat> {
    if node.commit <= |node.log| then node.log[..node.commit] else node.log
  }

  predicate Comparable(p: seq<nat>, q: seq<nat>) { p <= q || q <= p }

  /** Committed entries never conflict, whoever committed them and whenever. */
  ghost predicate CommitsAgree(b: seq<State>) {
    forall k, k', i, j
      | 0 <= k < |b| && 0 <= k' < |b| && i in b[k].nodes && j in b[k'].nodes ::
      && b[k].nodes[i].commit <= |b[k].nodes[i].log|
      && Comparable(Committed(b[k].nodes[i]), Committed(b[k'].nodes[j]))
  }

  lemma CommittedComparable(n: nat, b: seq<State>, acts: seq<Action>, k: nat, k': nat, i: nat, j: nat)
    requires IsLoggedRun(ALL_LOG_GUARDS, n, b, acts) && k <= k' < |b| && i in b[k].nodes && j in b[k'].nodes
    ensures Comparable(Committed(b[k].nodes[i]), Committed(b[k'].nodes[j]))
  {
    CommittedStaysHeld(n, b, acts, k, k', i);
    CommittedStaysHeld(n, b, acts, k', k', j);
    HeldComparable(n, b[k'], Committed(b[k].nodes[i]), Committed(b[k'].nodes[j]));
  }

  /** State machine safety. */
  lemma StateMachineSafety(n: nat, b: seq<State>, acts: seq<Action>)
    requires IsLoggedRun(ALL_LOG_GUARDS, n, b, acts)
    ensures CommitsAgree(b)
  {
    forall k, k', i, j | 0 <= k < |b| && 0 <= k' < |b| && i in b[k].nodes && j in b[k'].nodes
      ensures b[k].nodes[i].commit <= |b[k].nodes[i].log|
      ensures Comparable(Committed(b[k].nodes[i]), Committed(b[k'].nodes[j]))
    {
      CommittedStaysHeld(n, b, acts, k, k, i);
      if k <= k' {
        CommittedComparable(n, b, acts, k, k', i, j);
      } else {
        CommittedComparable(n, b, acts, k', k, j, i);
      }
    }
  }
}
