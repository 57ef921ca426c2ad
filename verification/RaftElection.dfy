/**
 Properties of every run of the Raft step interpreter.

 The interpreter itself leaves four election guards to whoever drives it.  `Guards` names them,
 and `ElectionSafetyIffAllGuards` shows that elections are safe in every run exactly when all
 four are respected.  The ledger and the growth theorems hold for every choice of guards.
 */
module RaftElection {
  import opened Common
  import opened RaftInterpreter

  // ---------- runs ----------

  datatype Guards = Guards(
    newerTerm: bool,          // a term is taken over only when it is strictly larger
    candidateSelfVote: bool,  // only a candidate votes for itself
    currentResponse: bool,    // a vote response counts only in its own term
    majorityLeader: bool)     // only a candidate with a granted majority becomes leader

  const ALL_GUARDS := Guards(true, true, true, true)

  predicate Allowed(g: Guards, n: nat, st: State, a: Action)
    requires Callable(st, a)
  {
    var node := st.nodes[Actor(a)];
    match a
    case Receive(m, TakeTerm) => g.newerTerm ==> m.term > node.term
    case Receive(m, TakeVoteResponse) => g.currentResponse ==> m.term == node.term
    case RequestVote(i, j) => g.candidateSelfVote && i == j ==> node.role == Candidate
    case BecomeLeader(_) => g.majorityLeader ==> node.role == Candidate && 2 * |node.granted| > n
    case _ => true
  }

  predicate Step(g: Guards, n: nat, st: State, a: Action, st': State) {
    Callable(st, a) && !Raises(st, a) && Allowed(g, n, st, a) && st' == Apply(st, a)
  }

  predicate IsRun(g: Guards, n: nat, b: seq<State>, acts: seq<Action>) {
    && |b| == |acts| + 1
    && b[0] == Initial(n)
    && forall k {:trigger acts[k]} | 0 <= k < |acts| :: Step(g, n, b[k], acts[k], b[k + 1])
  }

  // ---------- election safety ----------

  predicate OneCandidatePerTerm(votes: set<Ballot>) {
    forall x, y | x in votes && y in votes && x.voter == y.voter && x.term == y.term :: x.candidate == y.candidate
  }

  predicate LeaderIn(st: State, i: nat, t: nat) {
    i in st.nodes && st.nodes[i].role == Leader && st.nodes[i].term == t
  }

  /** One vote per voter and term, and one leader per term over the whole run. */
  ghost predicate ElectionSafe(b: seq<State>) {
    && (forall k | 0 <= k < |b| :: OneCandidatePerTerm(b[k].votes))
    && (forall k, k', i, j, t
          | 0 <= k < |b| && 0 <= k' < |b| && LeaderIn(b[k], i, t) && LeaderIn(b[k'], j, t) :: i == j)
  }

  /** Votes cast so far: in the ledger, or decided but not yet made durable. */
  function Cast(st: State): set<Ballot> {
    st.votes + Ballots(st.pending)
  }

  predicate CastOk(st: State, x: Ballot) {
    && x.voter in st.nodes
    && x.term <= st.nodes[x.voter].term
    && (x.term == st.nodes[x.voter].term ==> st.nodes[x.voter].vote == Some(x.candidate))
  }

  predicate NodeInv(n: nat, st: State, i: nat)
    requires i in st.nodes
  {
    var node := st.nodes[i];
    && node.granted <= Ids(n)
    && (node.role != Follower ==>
          && node.vote == Some(i)
          && forall v | v in node.granted :: Ballot(v, node.term, i) in st.votes)
    && (node.role == Leader ==> 2 * |node.granted| > n)
  }

  predicate MessagesInv(st: State) {
    && (forall m | m in st.pending + st.messages :: m.src in st.nodes)
    && (forall m | m in st.messages && Grants(m) :: BallotOf(m) in st.votes)
  }

  predicate ElectionInv(n: nat, st: State) {
    && st.nodes.Keys == Ids(n)
    && MessagesInv(st)
    && (forall x | x in Cast(st) :: CastOk(st, x))
    && OneCandidatePerTerm(Cast(st))
    && (forall i {:trigger NodeInv(n, st, i)} | i in st.nodes :: NodeInv(n, st, i))
  }

  lemma PostBallots(ms: seq<Message>, m: Message)
    ensures Ballots(ms + [m]) == Ballots(ms) + if Grants(m) then {BallotOf(m)} else {}
  {
    forall x | x in Ballots(ms + [m])
      ensures x in Ballots(ms) + if Grants(m) then {BallotOf(m)} else {}
    {
      var m' :| m' in ms + [m] && Grants(m') && BallotOf(m') == x;
    }
    forall x | x in Ballots(ms)
      ensures x in Ballots(ms + [m])
    {
      var m' :| m' in ms && Grants(m') && BallotOf(m') == x;
      assert m' in ms + [m];
    }
    assert m in ms + [m];
  }

  lemma ReadyBallots(st: State, i: nat)
    requires i in st.nodes
    ensures Cast(ReadyState(st, i)) == Cast(st)
  {
    var out, rest := From(st.pending, i), NotFrom(st.pending, i);
    forall x | x in Ballots(st.pending)
      ensures x in Ballots(out) + Ballots(rest)
    {
      var m :| m in st.pending && Grants(m) && BallotOf(m) == x;
      assert m in out || m in rest;
    }
    assert Ballots(out) <= Ballots(st.pending) && Ballots(rest) <= Ballots(st.pending);
  }

  lemma RemoveMembers(ms: seq<Message>, m: Message)
    requires m in ms
    ensures forall x | x in Remove(ms, m) :: x in ms
  {
    forall x | x in Remove(ms, m)
      ensures x in ms
    {
      assert x in multiset(Remove(ms, m));
      assert x in multiset(ms);
    }
  }

  /** Nothing an election depends on changes, except that nodes may step down. */
  predicate Quiet(st: State, st': State) {
    && st'.votes == st.votes
    && Ballots(st'.pending) == Ballots(st.pending)
    && st'.nodes.Keys == st.nodes.Keys
    && (forall m | m in st'.messages :: m in st.messages)
    && (forall m | m in st'.pending :: m in st.pending || m.src in st.nodes)
    && forall i | i in st.nodes :: SameElection(st.nodes[i], st'.nodes[i])
  }

  predicate SameElection(x: Node, y: Node) {
    y.term == x.term && y.vote == x.vote && y.granted == x.granted && (y.role == x.role || y.role == Follower)
  }

  predicate QuietAction(a: Action) {
    match a
    case Receive(_, how) => how == AppendExtend || how == AppendDone || how == TakeAppendResponse
    case RequestVote(i, j) => i != j
    case Timeout(_) => false
    case Ready(_) => false
    case BecomeLeader(_) => false
    case _ => true
  }

  lemma QuietNodes(st: State, a: Action)
    requires Callable(st, a) && !Raises(st, a) && QuietAction(a)
    ensures var st' := Apply(st, a);
            && st'.votes == st.votes && st'.nodes.Keys == st.nodes.Keys
            && forall i | i in st.nodes :: SameElection(st.nodes[i], st'.nodes[i])
  {
  }

  lemma QuietMessages(st: State, a: Action)
    requires Callable(st, a) && !Raises(st, a) && QuietAction(a)
    ensures var st' := Apply(st, a);
            && (forall m | m in st'.messages :: m in st.messages)
            && (st'.pending == st.pending ||
                exists m :: st'.pending == st.pending + [m] && m.src in st.nodes && !Grants(m))
  {
    if a.Receive? {
      RemoveMembers(st.messages, a.m);
    }
    var st' := Apply(st, a);
    if st'.pending != st.pending {
      assert st'.pending == st.pending + [st'.pending[|st'.pending| - 1]];
    }
  }

  lemma QuietActionIsQuiet(st: State, a: Action)
    requires Callable(st, a) && !Raises(st, a) && QuietAction(a)
    ensures Quiet(st, Apply(st, a))
  {
    QuietNodes(st, a);
    QuietMessages(st, a);
    var st' := Apply(st, a);
    if st'.pending != st.pending {
      var m :| st'.pending == st.pending + [m] && m.src in st.nodes && !Grants(m);
      PostBallots(st.pending, m);
    }
  }

  lemma QuietKeepsInv(n: nat, st: State, st': State)
    requires ElectionInv(n, st) && Quiet(st, st')
    ensures ElectionInv(n, st')
  {
    forall i | i in st'.nodes
      ensures NodeInv(n, st', i)
    {
      assert NodeInv(n, st, i);
    }
  }

  lemma TakeTermKeepsInv(n: nat, st: State, m: Message)
    requires ElectionInv(n, st) && Callable(st, Receive(m, TakeTerm)) && m.term > st.nodes[m.dst].term
    ensures ElectionInv(n, ApplyReceive(st, m, TakeTerm))
  {
    var st' := ApplyReceive(st, m, TakeTerm);
    forall i | i in st'.nodes
      ensures NodeInv(n, st', i)
    {
      assert NodeInv(n, st, i);
    }
  }

  lemma VoteResponseKeepsInv(n: nat, st: State, m: Message)
    requires ElectionInv(n, st) && Callable(st, Receive(m, TakeVoteResponse)) && m.term == st.nodes[m.dst].term
    ensures ElectionInv(n, ApplyReceive(st, m, TakeVoteResponse))
  {
    var st' := ApplyReceive(st, m, TakeVoteResponse);
    RemoveMembers(st.messages, m);
    assert MessagesInv(st') && Cast(st') == Cast(st);
    forall i | i in st'.nodes
      ensures NodeInv(n, st', i)
    {
      VoteResponseNode(n, st, m, i);
    }
  }

  lemma VoteResponseNode(n: nat, st: State, m: Message, i: nat)
    requires ElectionInv(n, st) && Callable(st, Receive(m, TakeVoteResponse)) && m.term == st.nodes[m.dst].term
    requires i in st.nodes
    ensures NodeInv(n, ApplyReceive(st, m, TakeVoteResponse), i)
  {
    assert NodeInv(n, st, i);
    assert m in st.pending + st.messages;
    GrantedGrows(st.nodes[i].granted, st.nodes[i].granted + {m.src});
  }

  lemma GrantedGrows(p: set<nat>, q: set<nat>)
    ensures p <= q ==> |p| <= |q|
  {
    if p <= q {
      assert q == p + (q - p);
    }
  }

  /** A new vote at the voter's current term, for the candidate it has recorded. */
  lemma CastKeepsInv(n: nat, st: State, st': State, x: Ballot)
    requires ElectionInv(n, st)
    requires st'.nodes.Keys == st.nodes.Keys && st'.votes == st.votes
    requires Ballots(st'.pending) == Ballots(st.pending) + {x}
    requires MessagesInv(st')
    requires x.voter in st.nodes && x.term == st.nodes[x.voter].term
    requires st.nodes[x.voter].vote.None? || st.nodes[x.voter].vote == Some(x.candidate)
    requires st'.nodes == st.nodes[x.voter := st.nodes[x.voter].(vote := Some(x.candidate))]
    ensures ElectionInv(n, st')
  {
    assert Cast(st') == Cast(st) + {x};
    forall y | y in Cast(st)
      ensures CastOk(st', y) && (y.voter == x.voter && y.term == x.term ==> y.candidate == x.candidate)
    {
      assert CastOk(st, y);
    }
    OneMoreBallot(Cast(st), x);
    forall i | i in st'.nodes
      ensures NodeInv(n, st', i)
    {
      assert NodeInv(n, st, i);
    }
  }

  lemma OneMoreBallot(votes: set<Ballot>, x: Ballot)
    requires OneCandidatePerTerm(votes)
    requires forall y | y in votes && y.voter == x.voter && y.term == x.term :: y.candidate == x.candidate
    ensures OneCandidatePerTerm(votes + {x})
  {
  }

  lemma VoteRequestKeepsInv(n: nat, st: State, m: Message)
    requires ElectionInv(n, st) && Callable(st, Receive(m, TakeVoteRequest)) && MayVote(st.nodes[m.dst], m)
    ensures ElectionInv(n, ApplyReceive(st, m, TakeVoteRequest))
  {
    var answer := Message(m.dst, m.src, st.nodes[m.dst].term, VoteResponse(true));
    PostBallots(st.pending, answer);
    RemoveMembers(st.messages, m);
    CastKeepsInv(n, st, ApplyReceive(st, m, TakeVoteRequest), BallotOf(answer));
  }

  lemma SelfVoteKeepsInv(n: nat, st: State, i: nat)
    requires ElectionInv(n, st) && i in st.nodes && st.nodes[i].role == Candidate
    ensures ElectionInv(n, Apply(st, RequestVote(i, i)))
  {
    assert NodeInv(n, st, i);
    var vote := Message(i, i, st.nodes[i].term, VoteResponse(true));
    PostBallots(st.pending, vote);
    CastKeepsInv(n, st, Apply(st, RequestVote(i, i)), BallotOf(vote));
  }

  lemma TimeoutKeepsInv(n: nat, st: State, i: nat)
    requires ElectionInv(n, st) && i in st.nodes
    ensures ElectionInv(n, Apply(st, Timeout(i)))
  {
    var st' := Apply(st, Timeout(i));
    forall j | j in st'.nodes
      ensures NodeInv(n, st', j)
    {
      assert NodeInv(n, st, j);
    }
  }

  lemma ReadyNodes(n: nat, st: State, i: nat)
    requires i in st.nodes && forall j | j in st.nodes :: NodeInv(n, st, j)
    ensures forall j | j in ReadyState(st, i).nodes :: NodeInv(n, ReadyState(st, i), j)
  {
    var st' := ReadyState(st, i);
    forall j | j in st'.nodes
      ensures NodeInv(n, st', j)
    {
      assert NodeInv(n, st, j);
    }
  }

  lemma ReadyKeepsInv(n: nat, st: State, i: nat)
    requires ElectionInv(n, st) && i in st.nodes
    ensures ElectionInv(n, ReadyState(st, i))
  {
    var st' := ReadyState(st, i);
    ReadyBallots(st, i);
    ReadyNodes(n, st, i);
    forall m | m in st'.pending + st'.messages
      ensures m.src in st'.nodes
    {
      assert m in st.pending + st.messages;
    }
  }

  lemma BecomeLeaderKeepsInv(n: nat, st: State, i: nat)
    requires ElectionInv(n, st) && i in st.nodes && st.nodes[i].role == Candidate && 2 * |st.nodes[i].granted| > n
    ensures ElectionInv(n, Apply(st, BecomeLeader(i)))
  {
    var st' := Apply(st, BecomeLeader(i));
    NodeKeepsInv(n, st, st', i);
  }

  /** One node changes nothing but its role and bookkeeping that no election depends on. */
  lemma NodeKeepsInv(n: nat, st: State, st': State, i: nat)
    requires ElectionInv(n, st) && i in st.nodes && st'.nodes.Keys == st.nodes.Keys
    requires st' == st.(nodes := st.nodes[i := st'.nodes[i]])
    requires var x, y := st.nodes[i], st'.nodes[i];
             && y.term == x.term && y.vote == x.vote && y.granted == x.granted
             && x.role != Follower && (y.role == Leader ==> 2 * |x.granted| > n)
    ensures ElectionInv(n, st')
  {
    assert Cast(st') == Cast(st) && MessagesInv(st');
    forall x | x in Cast(st)
      ensures CastOk(st', x)
    {
      assert CastOk(st, x);
    }
    forall j | j in st'.nodes
      ensures NodeInv(n, st', j)
    {
      assert NodeInv(n, st, j);
    }
  }

  lemma StepKeepsElectionInv(n: nat, st: State, a: Action, st': State)
    requires ElectionInv(n, st) && Step(ALL_GUARDS, n, st, a, st')
    ensures ElectionInv(n, st')
  {
    if QuietAction(a) {
      QuietActionIsQuiet(st, a);
      QuietKeepsInv(n, st, st');
    } else {
      match a
      case Receive(m, TakeTerm) => TakeTermKeepsInv(n, st, m);
      case Receive(m, TakeVoteResponse) => VoteResponseKeepsInv(n, st, m);
      case Receive(m, TakeVoteRequest) => VoteRequestKeepsInv(n, st, m);
      case RequestVote(i, _) => SelfVoteKeepsInv(n, st, i);
      case Timeout(i) => TimeoutKeepsInv(n, st, i);
      case Ready(i) => ReadyKeepsInv(n, st, i);
      case BecomeLeader(i) => BecomeLeaderKeepsInv(n, st, i);
    }
  }

  lemma NthStep(g: Guards, n: nat, b: seq<State>, acts: seq<Action>, k: nat)
    requires IsRun(g, n, b, acts) && k < |acts|
    ensures Step(g, n, b[k], acts[k], b[k + 1])
  {
  }

  lemma NthStepKeepsInv(n: nat, b: seq<State>, acts: seq<Action>, k: nat)
    requires IsRun(ALL_GUARDS, n, b, acts) && 0 < k < |b| && ElectionInv(n, b[k - 1])
    ensures ElectionInv(n, b[k])
  {
    NthStep(ALL_GUARDS, n, b, acts, k - 1);
    StepKeepsElectionInv(n, b[k - 1], acts[k - 1], b[k]);
  }

  lemma InitialElectionInv(n: nat, st: State)
    requires st == Initial(n)
    ensures ElectionInv(n, st)
  {
    assert Ballots([]) == {} && Cast(st) == {};
    assert st.nodes.Keys == Ids(n);
    forall i | i in st.nodes
      ensures NodeInv(n, st, i)
    {
      assert st.nodes[i] == InitialNode(n);
    }
  }

  lemma {:induction false} RunElectionInv(n: nat, b: seq<State>, acts: seq<Action>, k: nat)
    requires IsRun(ALL_GUARDS, n, b, acts) && k < |b|
    ensures ElectionInv(n, b[k])
  {
    if k > 0 {
      RunElectionInv(n, b, acts, k - 1);
      NthStepKeepsInv(n, b, acts, k);
    } else {
      InitialElectionInv(n, b[k]);
    }
  }

  /** Two majorities of n voters share a voter. */
  lemma MajoritiesMeet(n: nat, p: set<nat>, q: set<nat>) returns (v: nat)
    requires p <= Ids(n) && q <= Ids(n) && 2 * |p| > n && 2 * |q| > n
    ensures v in p && v in q
  {
    if p * q == {} {
      Disjoint(p, q, Ids(n));
    }
    v :| v in p * q;
  }

  lemma Disjoint(p: set<nat>, q: set<nat>, u: set<nat>)
    requires p <= u && q <= u && p * q == {}
    ensures |p| + |q| <= |u|
  {
    assert |p + q| == |p| + |q|;
    assert u == (p + q) + (u - (p + q));
  }

  lemma SafetyFromGuards(n: nat, b: seq<State>, acts: seq<Action>)
    requires IsRun(ALL_GUARDS, n, b, acts)
    ensures ElectionSafe(b)
  {
    forall k | 0 <= k < |b|
      ensures OneCandidatePerTerm(b[k].votes)
    {
      RunElectionInv(n, b, acts, k);
    }
    forall k, k', i, j, t | 0 <= k < |b| && 0 <= k' < |b| && LeaderIn(b[k], i, t) && LeaderIn(b[k'], j, t)
      ensures i == j
    {
      if k <= k' {
        OneLeader(n, b, acts, k, k', i, j, t);
      } else {
        OneLeader(n, b, acts, k', k, j, i, t);
      }
    }
  }

  lemma OneLeader(n: nat, b: seq<State>, acts: seq<Action>, k: nat, k': nat, i: nat, j: nat, t: nat)
    requires IsRun(ALL_GUARDS, n, b, acts) && k <= k' < |b|
    requires LeaderIn(b[k], i, t) && LeaderIn(b[k'], j, t)
    ensures i == j
  {
    RunElectionInv(n, b, acts, k);
    RunElectionInv(n, b, acts, k');
    RunGrows(ALL_GUARDS, n, b, acts, k, k');
    assert NodeInv(n, b[k], i) && NodeInv(n, b[k'], j);
    var v := MajoritiesMeet(n, b[k].nodes[i].granted, b[k'].nodes[j].granted);
    assert Ballot(v, t, i) in b[k].votes && Ballot(v, t, j) in b[k'].votes;
  }

  // ---------- growth and the ledger, whatever the guards ----------

  /** Logs are extended, commits rise, and ballots are never withdrawn. */
  predicate Grows(st: State, st': State) {
    && st.votes <= st'.votes
    && st.nodes.Keys == st'.nodes.Keys
    && forall i | i in st.nodes ::
         st.nodes[i].log <= st'.nodes[i].log && st.nodes[i].commit <= st'.nodes[i].commit
  }

  lemma StepGrows(g: Guards, n: nat, st: State, a: Action, st': State)
    requires Step(g, n, st, a, st')
    ensures Grows(st, st')
  {
  }

  lemma {:induction false} RunGrows(g: Guards, n: nat, b: seq<State>, acts: seq<Action>, k: nat, k': nat)
    requires IsRun(g, n, b, acts) && k <= k' < |b|
    ensures Grows(b[k], b[k'])
    decreases k'
  {
    if k < k' {
      RunGrows(g, n, b, acts, k, k' - 1);
      assert Step(g, n, b[k' - 1], acts[k' - 1], b[k' - 1 + 1]);
      StepGrows(g, n, b[k' - 1], acts[k' - 1], b[k']);
      GrowsTransitive(b[k], b[k' - 1], b[k']);
    }
  }

  lemma GrowsTransitive(x: State, y: State, z: State)
    requires Grows(x, y) && Grows(y, z)
    ensures Grows(x, z)
  {
    forall i | i in x.nodes
      ensures x.nodes[i].log <= z.nodes[i].log && x.nodes[i].commit <= z.nodes[i].commit
    {
      assert x.nodes[i].log <= y.nodes[i].log <= z.nodes[i].log;
    }
  }

  /** Granted responses in flight are in the ledger, and granted voters have a ballot there for that candidate. */
  ghost predicate LedgerInv(st: State) {
    && (forall m | m in st.messages && Grants(m) :: BallotOf(m) in st.votes)
    && (forall i, v | i in st.nodes && v in st.nodes[i].granted :: HasBallot(st.votes, v, i))
  }

  ghost predicate HasBallot(votes: set<Ballot>, v: nat, i: nat) {
    exists t: nat :: Ballot(v, t, i) in votes
  }

  /** A step records every granted response it puts in flight. */
  lemma StepRecords(g: Guards, n: nat, st: State, a: Action, st': State)
    requires Step(g, n, st, a, st') && forall m | m in st.messages && Grants(m) :: BallotOf(m) in st.votes
    ensures forall m | m in st'.messages && Grants(m) :: BallotOf(m) in st'.votes
  {
    StepGrows(g, n, st, a, st');
    if a.Receive? {
      RemoveMembers(st.messages, a.m);
    }
  }

  /** A voter newly counted as granted sent a granted response that was in flight. */
  lemma StepCounts(g: Guards, n: nat, st: State, a: Action, st': State, i: nat, v: nat)
    requires Step(g, n, st, a, st') && i in st'.nodes && v in st'.nodes[i].granted && v !in st.nodes[i].granted
    ensures a.Receive? && a.m in st.messages && Grants(a.m) && a.m.src == v && a.m.dst == i
  {
  }

  lemma StepLedger(g: Guards, n: nat, st: State, a: Action, st': State)
    requires LedgerInv(st) && Step(g, n, st, a, st')
    ensures LedgerInv(st')
  {
    StepGrows(g, n, st, a, st');
    StepRecords(g, n, st, a, st');
    forall i, v | i in st'.nodes && v in st'.nodes[i].granted
      ensures HasBallot(st'.votes, v, i)
    {
      if v in st.nodes[i].granted {
        assert HasBallot(st.votes, v, i);
      } else {
        StepCounts(g, n, st, a, st', i, v);
        assert BallotOf(a.m) == Ballot(v, a.m.term, i);
      }
    }
  }

  lemma {:induction false} RunLedger(g: Guards, n: nat, b: seq<State>, acts: seq<Action>, k: nat)
    requires IsRun(g, n, b, acts) && k < |b|
    ensures LedgerInv(b[k])
  {
    if k > 0 {
      RunLedger(g, n, b, acts, k - 1);
      assert Step(g, n, b[k - 1], acts[k - 1], b[k - 1 + 1]);
      StepLedger(g, n, b[k - 1], acts[k - 1], b[k]);
    }
  }

  // ---------- votes are durable before they count ----------

  /** A node restarted from this disk remembers that it has cast x, or has moved on to a later term. */
  predicate Remembers(disk: Disk, x: Ballot) {
    disk.term > x.term || (disk.term == x.term && disk.vote == Some(x.candidate))
  }

  predicate DurableInv(st: State) {
    forall x | x in st.votes :: x.voter in st.nodes && Remembers(st.nodes[x.voter].disk, x)
  }

  lemma ReadyDurable(n: nat, st: State, i: nat)
    requires ElectionInv(n, st) && DurableInv(st) && i in st.nodes
    ensures DurableInv(ReadyState(st, i))
  {
    var st' := ReadyState(st, i);
    forall x | x in st'.votes
      ensures x.voter in st'.nodes && Remembers(st'.nodes[x.voter].disk, x)
    {
      if x !in st.votes {
        var m :| m in From(st.pending, i) && Grants(m) && BallotOf(m) == x;
        assert x in Ballots(st.pending);
      }
      assert CastOk(st, x);
    }
  }

  /** Only Ready writes a disk or the ledger. */
  lemma OthersKeepDisks(n: nat, st: State, a: Action)
    requires Callable(st, a) && !Raises(st, a) && !a.Ready?
    ensures var st' := Apply(st, a);
            && st'.votes == st.votes && st'.nodes.Keys == st.nodes.Keys
            && forall i | i in st.nodes :: st'.nodes[i].disk == st.nodes[i].disk
  {
  }

  /** Every counted vote, and so every granted response in flight, is on its voter's disk. */
  lemma {:induction false} RunDurable(n: nat, b: seq<State>, acts: seq<Action>, k: nat)
    requires IsRun(ALL_GUARDS, n, b, acts) && k < |b|
    ensures DurableInv(b[k])
    ensures forall m | m in b[k].messages && Grants(m) ::
              m.src in b[k].nodes && Remembers(b[k].nodes[m.src].disk, BallotOf(m))
  {
    RunLedger(ALL_GUARDS, n, b, acts, k);
    if k > 0 {
      RunDurable(n, b, acts, k - 1);
      NthStepDurable(n, b, acts, k);
    }
  }

  lemma NthStepDurable(n: nat, b: seq<State>, acts: seq<Action>, k: nat)
    requires IsRun(ALL_GUARDS, n, b, acts) && 0 < k < |b| && DurableInv(b[k - 1])
    ensures DurableInv(b[k])
  {
    NthStep(ALL_GUARDS, n, b, acts, k - 1);
    if acts[k - 1].Ready? {
      RunElectionInv(n, b, acts, k - 1);
      ReadyDurable(n, b[k - 1], acts[k - 1].i);
    } else {
      OthersKeepDisks(n, b[k - 1], acts[k - 1]);
    }
  }
}
