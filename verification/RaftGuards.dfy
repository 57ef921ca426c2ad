/**
 Each of the four election guards is needed: dropping any one of them admits an unsafe run.  Even
 all four leave room for logs that do not match.
 */
module RaftGuards {
  import opened Common
  import opened RaftInterpreter
  import opened RaftElection
  import opened RaftLogs

  ghost predicate Reachable(g: Guards, n: nat, st: State) {
    exists b: seq<State>, acts: seq<Action> :: IsRun(g, n, b, acts) && b[|b| - 1] == st
  }

  lemma InitialReachable(g: Guards, n: nat)
    ensures Reachable(g, n, Initial(n))
  {
    var b: seq<State>, acts: seq<Action> := [Initial(n)], [];
    assert IsRun(g, n, b, acts);
  }

  /** One more permitted action. */
  lemma Reach(g: Guards, n: nat, st: State, a: Action) returns (st': State)
    requires Reachable(g, n, st) && Callable(st, a) && !Raises(st, a) && Allowed(g, n, st, a)
    ensures st' == Apply(st, a) && Reachable(g, n, st')
  {
    st' := Apply(st, a);
    var b, acts :| IsRun(g, n, b, acts) && b[|b| - 1] == st;
    var b', acts' := b + [st'], acts + [a];
    forall k | 0 <= k < |acts'|
      ensures Step(g, n, b'[k], acts'[k], b'[k + 1])
    {
      if k < |acts| {
        assert Step(g, n, b[k], acts[k], b[k + 1]);
      }
    }
    assert IsRun(g, n, b', acts');
  }

  /** A voter with two votes in one term, or a term with two leaders. */
  ghost predicate Unsafe(st: State) {
    !OneCandidatePerTerm(st.votes) || exists i, j, t | LeaderIn(st, i, t) && LeaderIn(st, j, t) :: i != j
  }

  /** The messages of node i reach the network and its granted votes reach the ledger. */
  lemma Flush(st: State, i: nat, m: Message)
    requires i in st.nodes && m in st.pending && m.src == i
    ensures m in ReadyState(st, i).messages
    ensures Grants(m) ==> BallotOf(m) in ReadyState(st, i).votes
  {
    assert m in From(st.pending, i);
  }

  lemma StillInFlight(ms: seq<Message>, m: Message, other: Message)
    requires m in ms && other in ms && other != m
    ensures other in Remove(ms, m)
  {
    assert multiset(Remove(ms, m))[other] == multiset(ms)[other];
  }

  lemma WithoutMajorityLeader() returns (st: State)
    ensures Reachable(ALL_GUARDS.(majorityLeader := false), 2, st) && Unsafe(st)
  {
    var g := ALL_GUARDS.(majorityLeader := false);
    InitialReachable(g, 2);
    st := Reach(g, 2, Initial(2), BecomeLeader(1));
    st := Reach(g, 2, st, BecomeLeader(2));
    assert LeaderIn(st, 1, 0) && LeaderIn(st, 2, 0);
  }

  /** Node i asks node v for its vote in term 0 and the request is put on the network. */
  lemma AskInTermZero(g: Guards, n: nat, st: State, i: nat, v: nat) returns (st': State)
    requires Reachable(g, n, st) && i in st.nodes && v in st.nodes && i != v
    requires st.nodes[i].term == 0 && st.nodes[i].log == []
    ensures Reachable(g, n, st') && st'.nodes.Keys == st.nodes.Keys
    ensures Message(i, v, 0, VoteRequest(0, 0)) in st'.messages
    ensures forall m | m in st.messages :: m in st'.messages
    ensures forall m | m in st.pending && m.src != i :: m in st'.pending
    ensures forall k | k in st.nodes :: SameButDisk(st.nodes[k], st'.nodes[k])
  {
    var st1 := Reach(g, n, st, RequestVote(i, v));
    var ask := Message(i, v, 0, VoteRequest(0, 0));
    assert ask in st1.pending;
    st' := Reach(g, n, st1, Ready(i));
    Flush(st1, i, ask);
  }

  predicate SameButDisk(x: Node, y: Node) {
    y == x.(disk := y.disk)
  }

  /** Node v, which has not voted in term 0, answers a request of term 0. */
  lemma VoteInTermZero(g: Guards, n: nat, st: State, i: nat, v: nat) returns (st': State)
    requires Reachable(g, n, st) && v in st.nodes && Message(i, v, 0, VoteRequest(0, 0)) in st.messages
    requires st.nodes[v].term == 0 && st.nodes[v].log == [] && st.nodes[v].vote == None
    ensures Reachable(g, n, st') && st'.nodes == st.nodes[v := st.nodes[v].(vote := Some(i))]
    ensures st'.pending == st.pending + [Message(v, i, 0, VoteResponse(true))]
    ensures st'.messages == Remove(st.messages, Message(i, v, 0, VoteRequest(0, 0)))
  {
    st' := Reach(g, n, st, Receive(Message(i, v, 0, VoteRequest(0, 0)), TakeVoteRequest));
  }

  lemma WithoutCandidateSelfVote() returns (st: State)
    ensures Reachable(ALL_GUARDS.(candidateSelfVote := false), 2, st) && Unsafe(st)
  {
    var g := ALL_GUARDS.(candidateSelfVote := false);
    InitialReachable(g, 2);
    st := AskInTermZero(g, 2, Initial(2), 1, 2);
    st := VoteInTermZero(g, 2, st, 1, 2);
    st := Reach(g, 2, st, RequestVote(2, 2));
    var yes, self := Message(2, 1, 0, VoteResponse(true)), Message(2, 2, 0, VoteResponse(true));
    assert yes in st.pending && self in st.pending;
    Flush(st, 2, yes);
    Flush(st, 2, self);
    st := Reach(g, 2, st, Ready(2));
    assert BallotOf(yes) in st.votes && BallotOf(self) in st.votes;
  }

  lemma WithoutNewerTerm() returns (st: State)
    ensures Reachable(ALL_GUARDS.(newerTerm := false), 3, st) && Unsafe(st)
  {
    var g := ALL_GUARDS.(newerTerm := false);
    var ask1, ask2 := Message(1, 3, 0, VoteRequest(0, 0)), Message(2, 3, 0, VoteRequest(0, 0));
    var yes1, yes2 := Message(3, 1, 0, VoteResponse(true)), Message(3, 2, 0, VoteResponse(true));
    InitialReachable(g, 3);
    st := AskInTermZero(g, 3, Initial(3), 1, 3);
    st := AskInTermZero(g, 3, st, 2, 3);
    StillInFlight(st.messages, ask1, ask2);
    st := VoteInTermZero(g, 3, st, 1, 3);
    st := Reach(g, 3, st, Receive(ask2, TakeTerm));
    st := VoteInTermZero(g, 3, st, 2, 3);
    assert yes1 in st.pending && yes2 in st.pending;
    Flush(st, 3, yes1);
    Flush(st, 3, yes2);
    st := Reach(g, 3, st, Ready(3));
    assert BallotOf(yes1) in st.votes && BallotOf(yes2) in st.votes;
  }

  /** Node i times out into term 1, votes for itself and makes everything it owes durable. */
  lemma CandidateInTermOne(g: Guards, n: nat, st: State, i: nat, owed: Message) returns (st': State)
    requires Reachable(g, n, st) && i in st.nodes && st.nodes[i].term == 0 && owed in st.pending && owed.src == i
    ensures Reachable(g, n, st') && st'.nodes.Keys == st.nodes.Keys
    ensures owed in st'.messages && Message(i, i, 1, VoteResponse(true)) in st'.messages
    ensures forall m | m in st.messages :: m in st'.messages
    ensures forall m | m in st.pending && m.src != i :: m in st'.pending
    ensures st'.nodes[i].term == 1 && st'.nodes[i].role == Candidate && st'.nodes[i].granted == {}
    ensures forall k | k in st.nodes && k != i :: st'.nodes[k] == st.nodes[k]
  {
    st' := Reach(g, n, st, Timeout(i));
    st' := Reach(g, n, st', RequestVote(i, i));
    var self := Message(i, i, 1, VoteResponse(true));
    assert self in st'.pending && owed in st'.pending;
    Flush(st', i, self);
    Flush(st', i, owed);
    st' := Reach(g, n, st', Ready(i));
  }

  /** Node i counts a response of term 0 and its own vote, and leads term 1. */
  lemma LeadWithStaleVote(g: Guards, st: State, i: nat, v: nat) returns (st': State)
    requires !g.currentResponse && Reachable(g, 2, st) && i in st.nodes && i != v
    requires Message(v, i, 0, VoteResponse(true)) in st.messages && Message(i, i, 1, VoteResponse(true)) in st.messages
    requires st.nodes[i].term == 1 && st.nodes[i].role == Candidate && st.nodes[i].granted == {}
    ensures Reachable(g, 2, st') && LeaderIn(st', i, 1) && st'.nodes.Keys == st.nodes.Keys
    ensures forall k | k in st.nodes && k != i :: st'.nodes[k] == st.nodes[k]
    ensures forall m | m in st.messages && m.dst != i :: m in st'.messages
  {
    var stale, self := Message(v, i, 0, VoteResponse(true)), Message(i, i, 1, VoteResponse(true));
    StillInFlight(st.messages, stale, self);
    var st1 := Reach(g, 2, st, Receive(stale, TakeVoteResponse));
    var st2 := Reach(g, 2, st1, Receive(self, TakeVoteResponse));
    forall m | m in st.messages && m.dst != i
      ensures m in st2.messages
    {
      StillInFlight(st.messages, stale, m);
      StillInFlight(st1.messages, self, m);
    }
    assert st2.nodes[i].granted == {v, i};
    st' := Reach(g, 2, st2, BecomeLeader(i));
  }

  lemma WithoutCurrentResponse() returns (st: State)
    ensures Reachable(ALL_GUARDS.(currentResponse := false), 2, st) && Unsafe(st)
  {
    var g := ALL_GUARDS.(currentResponse := false);
    var ask1, ask2 := Message(1, 2, 0, VoteRequest(0, 0)), Message(2, 1, 0, VoteRequest(0, 0));
    var old1, old2 := Message(2, 1, 0, VoteResponse(true)), Message(1, 2, 0, VoteResponse(true));
    InitialReachable(g, 2);
    st := AskInTermZero(g, 2, Initial(2), 1, 2);
    st := AskInTermZero(g, 2, st, 2, 1);
    StillInFlight(st.messages, ask1, ask2);
    st := VoteInTermZero(g, 2, st, 1, 2);
    st := VoteInTermZero(g, 2, st, 2, 1);
    assert old1 in st.pending && old2 in st.pending;
    st := CandidateInTermOne(g, 2, st, 1, old2);
    st := CandidateInTermOne(g, 2, st, 2, old1);
    st := LeadWithStaleVote(g, st, 1, 2);
    st := LeadWithStaleVote(g, st, 2, 1);
    assert LeaderIn(st, 1, 1) && LeaderIn(st, 2, 1);
  }

  // ---------- the exact condition ----------

  ghost predicate EveryRunSafe(g: Guards) {
    forall n: nat, b: seq<State>, acts: seq<Action> | IsRun(g, n, b, acts) :: ElectionSafe(b)
  }

  predicate Weaker(g: Guards, h: Guards) {
    && (g.newerTerm ==> h.newerTerm) && (g.candidateSelfVote ==> h.candidateSelfVote)
    && (g.currentResponse ==> h.currentResponse) && (g.majorityLeader ==> h.majorityLeader)
  }

  lemma UnsafeUnderWeaker(g: Guards, h: Guards, n: nat, st: State)
    requires Weaker(g, h) && Reachable(h, n, st) && Unsafe(st)
    ensures !EveryRunSafe(g)
  {
    var b, acts :| IsRun(h, n, b, acts) && b[|b| - 1] == st;
    forall k | 0 <= k < |acts|
      ensures Step(g, n, b[k], acts[k], b[k + 1])
    {
      assert Step(h, n, b[k], acts[k], b[k + 1]);
    }
    assert IsRun(g, n, b, acts);
    var last := |b| - 1;
    assert b[last] == st && !ElectionSafe(b);
  }

  /** Elections are safe in every run if and only if all four guards are respected. */
  lemma ElectionSafetyIffAllGuards(g: Guards)
    ensures EveryRunSafe(g) <==> g == ALL_GUARDS
  {
    if g == ALL_GUARDS {
      forall n: nat, b: seq<State>, acts: seq<Action> | IsRun(g, n, b, acts)
        ensures ElectionSafe(b)
      {
        SafetyFromGuards(n, b, acts);
      }
    } else if !g.newerTerm {
      var st := WithoutNewerTerm();
      UnsafeUnderWeaker(g, ALL_GUARDS.(newerTerm := false), 3, st);
    } else if !g.candidateSelfVote {
      var st := WithoutCandidateSelfVote();
      UnsafeUnderWeaker(g, ALL_GUARDS.(candidateSelfVote := false), 2, st);
    } else if !g.currentResponse {
      var st := WithoutCurrentResponse();
      UnsafeUnderWeaker(g, ALL_GUARDS.(currentResponse := false), 2, st);
    } else {
      var st := WithoutMajorityLeader();
      UnsafeUnderWeaker(g, ALL_GUARDS.(majorityLeader := false), 2, st);
    }
  }

  // ---------- logs under the election guards alone ----------

  lemma TwoEntries() returns (st: State)
    ensures Reachable(ALL_GUARDS, 2, st) && 1 in st.nodes && 2 in st.nodes && st.pending == [] && st.messages == []
    ensures st.nodes[1].term == 1 && st.nodes[1].log == [0, 1] && st.nodes[1].commit == 0 && st.nodes[2].log == []
  {
    InitialReachable(ALL_GUARDS, 2);
    st := Reach(ALL_GUARDS, 2, Initial(2), ClientRequest(1));
    st := Reach(ALL_GUARDS, 2, st, Timeout(1));
    st := Reach(ALL_GUARDS, 2, st, ClientRequest(1));
  }

  /** Node 1 has the log [0, 1] and offers its second entry to node 2, whose log is empty. */
  lemma OfferSecondEntry() returns (st: State, m: Message)
    ensures Reachable(ALL_GUARDS, 2, st) && m in st.messages && m == Message(1, 2, 1, AppendRequest(App, 1, 0, [1], 0))
    ensures 1 in st.nodes && 2 in st.nodes && st.nodes[1].log == [0, 1] && st.nodes[2].log == []
  {
    st := TwoEntries();
    assert st.nodes[1].log[1..2] == [1];
    st := Reach(ALL_GUARDS, 2, st, SendAppend(1, 2, 2, 3));
    m := st.pending[0];
    assert m in st.pending;
    Flush(st, 1, m);
    st := Reach(ALL_GUARDS, 2, st, Ready(1));
  }

  /** The negative slice happens under all election guards: node 2 takes the second entry as its first. */
  lemma ShortLogMisextended() returns (st: State, m: Message)
    ensures Reachable(ALL_GUARDS, 2, st) && m in st.messages && m == Message(1, 2, 1, AppendRequest(App, 1, 0, [1], 0))
    ensures 1 in st.nodes && 2 in st.nodes && st.nodes[1].log == [0, 1] && st.nodes[2].log == [1]
    ensures !Installed(st.nodes[2].log, m.body.prev, m.body.entries)
  {
    st, m := OfferSecondEntry();
    assert SliceFrom([1], -1) == [1];
    st := Reach(ALL_GUARDS, 2, st, Receive(m, AppendExtend));
  }
}
