/**
 What the interpreter's bookkeeping and messages mean over whole runs: who has responded, what a vote
 request carries, what an acknowledgement guarantees about the disk, and how a commit index travels.
 */
module RaftEffects {
  import opened Common
  import opened RaftInterpreter
  import opened RaftElection
  import opened RaftLogs
  import opened RaftReplication
  import opened RaftCommits

  // ---------- who has responded ----------

  /** Step j takes a vote response from v at node i, a granted one if asked for. */
  predicate ResponseAt(acts: seq<Action>, j: nat, i: nat, v: nat, granted: bool)
    requires j < |acts|
  {
    && acts[j].Receive? && acts[j].how == TakeVoteResponse && acts[j].m.dst == i && acts[j].m.src == v
    && acts[j].m.body.VoteResponse? && (granted ==> acts[j].m.body.granted)
  }

  /** Such a step among the first k, with no timeout of node i after it. */
  predicate RespondedSince(acts: seq<Action>, k: nat, i: nat, v: nat, granted: bool)
    requires k <= |acts|
  {
    exists j | 0 <= j < k :: ResponseAt(acts, j, i, v, granted) && forall l | j < l < k :: acts[l] != Timeout(i)
  }

  lemma RespondedNext(acts: seq<Action>, k: nat, i: nat, v: nat, granted: bool)
    requires k < |acts|
    ensures RespondedSince(acts, k + 1, i, v, granted) <==>
            ResponseAt(acts, k, i, v, granted) || (RespondedSince(acts, k, i, v, granted) && acts[k] != Timeout(i))
  {
    if RespondedSince(acts, k, i, v, granted) && acts[k] != Timeout(i) {
      var j :| 0 <= j < k && ResponseAt(acts, j, i, v, granted) && forall l | j < l < k :: acts[l] != Timeout(i);
      assert forall l | j < l < k + 1 :: acts[l] != Timeout(i);
    }
    if RespondedSince(acts, k + 1, i, v, granted) {
      var j :|
        0 <= j < k + 1 && ResponseAt(acts, j, i, v, granted) && forall l | j < l < k + 1 :: acts[l] != Timeout(i);
      if j < k {
        assert acts[k] != Timeout(i);
      }
    }
  }

  lemma StepResponds(st: State, a: Action, i: nat, v: nat)
    requires Callable(st, a) && !Raises(st, a) && i in st.nodes
    ensures i in Apply(st, a).nodes
    ensures v in Apply(st, a).nodes[i].responded <==>
            ResponseAt([a], 0, i, v, false) || (v in st.nodes[i].responded && a != Timeout(i))
    ensures v in Apply(st, a).nodes[i].granted <==>
            ResponseAt([a], 0, i, v, true) || (v in st.nodes[i].granted && a != Timeout(i))
  {
  }

  /** A node's responded and granted sets are exactly the voters whose responses it took since its last timeout. */
  lemma {:induction false} RespondedIff(g: Guards, n: nat, b: seq<State>, acts: seq<Action>, k: nat, i: nat, v: nat)
    requires IsRun(g, n, b, acts) && k < |b| && i in Ids(n)
    ensures i in b[k].nodes
    ensures v in b[k].nodes[i].responded <==> RespondedSince(acts, k, i, v, false)
    ensures v in b[k].nodes[i].granted <==> RespondedSince(acts, k, i, v, true)
  {
    if k > 0 {
      RespondedIff(g, n, b, acts, k - 1, i, v);
      NthStep(g, n, b, acts, k - 1);
      StepResponds(b[k - 1], acts[k - 1], i, v);
      RespondedNext(acts, k - 1, i, v, false);
      RespondedNext(acts, k - 1, i, v, true);
    }
  }

  // ---------- vote requests ----------

  /** A vote request tells the length of a prefix of its sender's log and the term of that prefix's last entry. */
  predicate AskOk(st: State, m: Message) {
    m.body.VoteRequest? ==>
      && m.src in st.nodes
      && var log := st.nodes[m.src].log;
      m.body.lastIndex <= |log| && m.body.lastTerm == if m.body.lastIndex == 0 then 0 else log[m.body.lastIndex - 1]
  }

  lemma NewAskOk(st: State, a: Action)
    requires Callable(st, a) && !Raises(st, a) && NewMessage(st, a).Some?
    ensures AskOk(st, NewMessage(st, a).value)
    ensures a.RequestVote? && a.i != a.j ==>
              NewMessage(st, a).value.body.VoteRequest? && NewMessage(st, a).value.body.lastIndex == |st.nodes[a.i].log|
  {
  }

  lemma AskStaysOk(st: State, st': State, m: Message)
    requires AskOk(st, m) && Grows(st, st')
    ensures AskOk(st', m)
  {
    if m.body.VoteRequest? {
      assert st.nodes[m.src].log <= st'.nodes[m.src].log;
    }
  }

  lemma {:induction false} RunAsks(g: Guards, n: nat, b: seq<State>, acts: seq<Action>, k: nat)
    requires IsRun(g, n, b, acts) && k < |b|
    ensures forall m | m in b[k].pending + b[k].messages :: AskOk(b[k], m)
  {
    if k > 0 {
      RunAsks(g, n, b, acts, k - 1);
      NthStep(g, n, b, acts, k - 1);
      StepGrows(g, n, b[k - 1], acts[k - 1], b[k]);
      forall m | m in b[k].pending + b[k].messages
        ensures AskOk(b[k], m)
      {
        OldOrNew(b[k - 1], acts[k - 1], m);
        if NewMessage(b[k - 1], acts[k - 1]) == Some(m) {
          NewAskOk(b[k - 1], acts[k - 1]);
        }
        AskStaysOk(b[k - 1], b[k], m);
      }
    }
  }

  /** A vote is granted exactly in the voter's own term, to its first choice, and to a log at least as up to date. */
  lemma VoteGrantedIff(st: State, m: Message)
    requires Callable(st, Receive(m, TakeVoteRequest))
    ensures var node := st.nodes[m.dst];
            var last := if |node.log| == 0 then 0 else node.log[|node.log| - 1];
            !Raises(st, Receive(m, TakeVoteRequest)) <==>
              && m.term == node.term && (node.vote == None || node.vote == Some(m.src))
              && (m.body.lastTerm > last || (m.body.lastTerm == last && m.body.lastIndex >= |node.log|))
  {
  }

  // ---------- acknowledged entries are on disk ----------

  /** Every acknowledgement in flight covers only entries on its sender's disk, and disks hold prefixes of logs. */
  predicate AcksDurable(st: State) {
    && (forall i | i in st.nodes :: st.nodes[i].disk.log <= st.nodes[i].log)
    && (forall m | m in st.messages && m.body.AppendResponse? ::
          m.src in st.nodes && m.body.matched <= |st.nodes[m.src].disk.log|)
  }

  lemma ReadyAcksDurable(n: nat, st: State, i: nat)
    requires AcksDurable(st) && i in st.nodes
    requires forall m | m in st.pending && m.body.AppendResponse? && m.src == i :: m.body.matched <= |st.nodes[i].log|
    ensures AcksDurable(ReadyState(st, i))
  {
    var st' := ReadyState(st, i);
    assert forall m | m in st'.messages :: m in st.messages || m in From(st.pending, i);
    assert st.nodes[i].disk.log <= st.nodes[i].log;
  }

  lemma OthersKeepAcks(g: Guards, n: nat, st: State, a: Action, st': State)
    requires AcksDurable(st) && Step(g, n, st, a, st') && !a.Ready?
    ensures AcksDurable(st')
  {
    StepGrows(g, n, st, a, st');
    OthersKeepDisks(n, st, a);
    OthersDeliverNothing(st, a);
    forall i | i in st'.nodes
      ensures st'.nodes[i].disk.log <= st'.nodes[i].log
    {
      assert st.nodes[i].disk.log <= st.nodes[i].log <= st'.nodes[i].log;
    }
  }

  lemma OthersDeliverNothing(st: State, a: Action)
    requires Callable(st, a) && !Raises(st, a) && !a.Ready?
    ensures forall m | m in Apply(st, a).messages :: m in st.messages
  {
    if a.Receive? {
      RemoveMembers(st.messages, a.m);
    }
  }

  /** In every fully guarded run an acknowledgement in flight covers only entries that are on its sender's disk. */
  lemma {:induction false} RunAcksDurable(n: nat, b: seq<State>, acts: seq<Action>, k: nat)
    requires IsLoggedRun(ALL_LOG_GUARDS, n, b, acts) && k < |b|
    ensures AcksDurable(b[k])
  {
    if k > 0 {
      RunAcksDurable(n, b, acts, k - 1);
      NthStep(ALL_GUARDS, n, b, acts, k - 1);
      if acts[k - 1].Ready? {
        PendingAcks(n, b, acts, k - 1);
        ReadyAcksDurable(n, b[k - 1], acts[k - 1].i);
      } else {
        OthersKeepAcks(ALL_GUARDS, n, b[k - 1], acts[k - 1], b[k]);
      }
    }
  }

  lemma PendingAcks(n: nat, b: seq<State>, acts: seq<Action>, k: nat)
    requires IsLoggedRun(ALL_LOG_GUARDS, n, b, acts) && k < |b|
    ensures forall m | m in b[k].pending && m.body.AppendResponse? ::
              m.src in b[k].nodes && m.body.matched <= |b[k].nodes[m.src].log|
  {
    RunCommitInv(n, b, acts, k);
    forall m | m in b[k].pending && m.body.AppendResponse?
      ensures m.src in b[k].nodes && m.body.matched <= |b[k].nodes[m.src].log|
    {
      assert m in b[k].pending + b[k].messages;
      assert MessageOk(n, b[k], m);
    }
  }

  // ---------- single actions ----------

  /** A request that covers the sender's commit index brings the receiver's up to it. */
  lemma CommitTravels(st: State, m: Message, leader: Node, mode: Mode, begin: nat, end: nat)
    requires Callable(st, Receive(m, AppendDone)) && 1 <= begin && begin - 1 <= |leader.log|
    requires leader.commit <= |leader.log| && leader.commit < end
    requires m == AppendMessage(leader, m.src, m.dst, mode, begin, end)
    ensures var was, now := st.nodes[m.dst], ApplyReceive(st, m, AppendDone).nodes[m.dst];
            now == was.(commit := if leader.commit > was.commit then leader.commit else was.commit)
  {
  }

  /** Finishing a request answers it in its own mode, to its sender, with the index it goes up to. */
  lemma FinishAnswers(st: State, m: Message)
    requires Callable(st, Receive(m, AppendDone))
    ensures ApplyReceive(st, m, AppendDone).pending ==
            st.pending + [Message(m.dst, m.src, st.nodes[m.dst].term,
                                  AppendResponse(m.body.mode, true, m.body.prev + |m.body.entries|))]
  {
  }

  /** A receive consumes the message, except where a term is taken over or a log extended, and consumes no other. */
  lemma ReceiveConsumes(st: State, m: Message, how: How)
    requires Callable(st, Receive(m, how)) && !Raises(st, Receive(m, how))
    ensures multiset(ApplyReceive(st, m, how).messages) ==
            if how == TakeTerm || how == AppendExtend then multiset(st.messages)
            else multiset(st.messages) - multiset{m}
  {
  }

  lemma {:induction false} FromOrNot(ms: seq<Message>, i: nat)
    ensures multiset(From(ms, i)) + multiset(NotFrom(ms, i)) == multiset(ms)
  {
    if ms != [] {
      assert ms == [ms[0]] + ms[1..];
      FromOrNot(ms[1..], i);
    }
  }

  /** A completed write delivers exactly the node's own pending messages. */
  lemma ReadyDelivers(st: State, i: nat)
    requires i in st.nodes
    ensures var st' := ReadyState(st, i);
            && st.messages <= st'.messages
            && multiset(st'.messages) + multiset(st'.pending) == multiset(st.messages) + multiset(st.pending)
            && (forall m | m in st'.pending :: m.src != i)
            && forall m | m in st'.messages[|st.messages|..] :: m.src == i
  {
    var out := From(st.pending, i);
    FromOrNot(st.pending, i);
    assert (st.messages + out)[|st.messages|..] == out;
  }

  /** A snapshot carries the log up to the given index from its very start, and as much of the commit index. */
  lemma SnapshotCarriesPrefix(st: State, i: nat, j: nat, index: nat)
    requires i in st.nodes && index <= |st.nodes[i].log|
    ensures var node := st.nodes[i];
            var commit := if node.commit < index then node.commit else index;
            Apply(st, SendSnapshot(i, j, index)).pending ==
            st.pending + [Message(i, j, node.term, AppendRequest(Snapshot, 0, 0, node.log[..index], commit))]
  {
  }

  /** A new leader counts its own log and nobody else's. */
  lemma LeaderStartsCounting(st: State, i: nat, j: nat)
    requires i in st.nodes && j < |st.nodes[i].matched|
    ensures var now := Apply(st, BecomeLeader(i)).nodes[i];
            |now.matched| == |st.nodes[i].matched| && now.matched[j] == if j + 1 == i then |st.nodes[i].log| else 0
  {
  }

  /** Stepping down changes a role, and a completed write puts all that survives a restart on disk. */
  lemma StepDownAndReady(st: State, i: nat)
    requires i in st.nodes
    ensures var n := st.nodes[i];
            && Apply(st, StepDown(i)) == st.(nodes := st.nodes[i := n.(role := Follower)])
            && Apply(st, Ready(i)).nodes == st.nodes[i := n.(disk := Disk(n.term, n.vote, n.log, n.commit))]
  {
  }
}
