/**
 Runs that show what each log guard is for, even when all elections are safe: without one of the
 first four, logs do not match; without any of the five, nodes commit conflicting entries.  Leaders
 are elected in these runs the way the schedules elect them.
 */
module RaftLogRuns {
  import opened Common
  import opened RaftMajority
  import opened RaftInterpreter
  import opened RaftElection
  import opened RaftLogs
  import opened RaftGuards
  import opened RaftReplication

  // ---------- building runs ----------

  ghost predicate LogReachable(lg: LogGuards, n: nat, st: State) {
    exists b: seq<State>, acts: seq<Action> :: IsLoggedRun(lg, n, b, acts) && b[|b| - 1] == st
  }

  lemma InitialLogReachable(lg: LogGuards, n: nat)
    ensures LogReachable(lg, n, Initial(n))
  {
    var b: seq<State>, acts: seq<Action> := [Initial(n)], [];
    assert IsLoggedRun(lg, n, b, acts);
  }

  /** One more permitted action. */
  lemma Go(lg: LogGuards, n: nat, st: State, a: Action) returns (st': State)
    requires LogReachable(lg, n, st) && Callable(st, a) && !Raises(st, a)
    requires Allowed(ALL_GUARDS, n, st, a) && LogAllowed(lg, st, a)
    ensures st' == Apply(st, a) && LogReachable(lg, n, st')
  {
    st' := Apply(st, a);
    var b, acts :| IsLoggedRun(lg, n, b, acts) && b[|b| - 1] == st;
    var b', acts' := b + [st'], acts + [a];
    forall k | 0 <= k < |acts'|
      ensures Step(ALL_GUARDS, n, b'[k], acts'[k], b'[k + 1])
      ensures Callable(b'[k], acts'[k]) && LogAllowed(lg, b'[k], acts'[k])
    {
      if k < |acts| {
        NthStep(ALL_GUARDS, n, b, acts, k);
        assert acts'[k] == acts[k];
      }
    }
    assert IsLoggedRun(lg, n, b', acts');
  }

  // ---------- an election ----------

  predicate KeepsLog(x: Node, y: Node) {
    y.log == x.log && y.commit == x.commit && |y.matched| == |x.matched|
  }

  predicate KeepsLogs(st: State, st': State) {
    st'.nodes.Keys == st.nodes.Keys && forall k | k in st.nodes :: KeepsLog(st.nodes[k], st'.nodes[k])
  }

  predicate OthersSame(st: State, st': State, i: nat) {
    st'.nodes.Keys == st.nodes.Keys && forall k | k in st.nodes && k != i :: st'.nodes[k] == st.nodes[k]
  }

  /** Everything node i has pending reaches the network. */
  lemma Send(lg: LogGuards, n: nat, st: State, i: nat) returns (st': State)
    requires LogReachable(lg, n, st) && i in st.nodes
    ensures LogReachable(lg, n, st') && OthersSame(st, st', i) && SameButDisk(st.nodes[i], st'.nodes[i])
    ensures forall m | m in st.pending && m.src == i :: m in st'.messages
    ensures forall m | m in st.messages :: m in st'.messages
  {
    st' := Go(lg, n, st, Ready(i));
    forall m | m in st.pending && m.src == i
      ensures m in st'.messages
    {
      Flush(st, i, m);
    }
  }

  /** Node i times out and votes for itself. */
  lemma Stand(lg: LogGuards, n: nat, st: State, i: nat) returns (st': State)
    requires LogReachable(lg, n, st) && i in st.nodes
    ensures LogReachable(lg, n, st') && OthersSame(st, st', i) && KeepsLogs(st, st')
    ensures st'.nodes[i].term == st.nodes[i].term + 1 && st'.nodes[i].role == Candidate && st'.nodes[i].granted == {}
    ensures Message(i, i, st'.nodes[i].term, VoteResponse(true)) in st'.pending
  {
    var st1 := Go(lg, n, st, Timeout(i));
    st' := Go(lg, n, st1, RequestVote(i, i));
  }

  function AskFor(node: Node, i: nat, v: nat): Message {
    Message(i, v, node.term, VoteRequest(LastTerm(node.log), |node.log|))
  }

  /** Standing node i asks v for its vote, and both its own vote and the request are on the network. */
  lemma Campaign(lg: LogGuards, n: nat, st: State, i: nat, v: nat) returns (st': State)
    requires LogReachable(lg, n, st) && i in st.nodes && i != v
    ensures LogReachable(lg, n, st') && OthersSame(st, st', i) && KeepsLogs(st, st')
    ensures st'.nodes[i].term == st.nodes[i].term + 1 && st'.nodes[i].role == Candidate && st'.nodes[i].granted == {}
    ensures Message(i, i, st'.nodes[i].term, VoteResponse(true)) in st'.messages
    ensures AskFor(st'.nodes[i], i, v) in st'.messages
  {
    var st1 := Stand(lg, n, st, i);
    var st2 := Go(lg, n, st1, RequestVote(i, v));
    assert AskFor(st1.nodes[i], i, v) in st2.pending;
    st' := Send(lg, n, st2, i);
  }

  predicate UpToDate(candidate: Node, voter: Node) {
    || LastTerm(candidate.log) > LastTerm(voter.log)
    || (LastTerm(candidate.log) == LastTerm(voter.log) && |candidate.log| >= |voter.log|)
  }

  /** Node v takes over the candidate's term and votes for it. */
  lemma GiveVote(lg: LogGuards, n: nat, st: State, i: nat, v: nat) returns (st': State)
    requires LogReachable(lg, n, st) && i in st.nodes && v in st.nodes && i != v
    requires AskFor(st.nodes[i], i, v) in st.messages && st.nodes[v].term < st.nodes[i].term
    requires UpToDate(st.nodes[i], st.nodes[v])
    ensures LogReachable(lg, n, st') && OthersSame(st, st', v) && KeepsLogs(st, st')
    ensures st'.nodes[v].term == st.nodes[i].term
    ensures Message(v, i, st.nodes[i].term, VoteResponse(true)) in st'.pending
    ensures forall m | m in st.messages && m.dst != v :: m in st'.messages
  {
    var ask := AskFor(st.nodes[i], i, v);
    var st1 := Go(lg, n, st, Receive(ask, TakeTerm));
    st' := Go(lg, n, st1, Receive(ask, TakeVoteRequest));
    forall m | m in st.messages && m.dst != v
      ensures m in st'.messages
    {
      StillInFlight(st.messages, ask, m);
    }
  }

  /** A candidate counts the votes on the network, its own and another's, and leads. */
  lemma Win(lg: LogGuards, n: nat, st: State, i: nat, v: nat) returns (st': State)
    requires LogReachable(lg, n, st) && n <= 3 && i in st.nodes && i != v
    requires st.nodes[i].role == Candidate && st.nodes[i].granted == {}
    requires Message(i, i, st.nodes[i].term, VoteResponse(true)) in st.messages
    requires Message(v, i, st.nodes[i].term, VoteResponse(true)) in st.messages
    ensures LogReachable(lg, n, st') && OthersSame(st, st', i) && KeepsLogs(st, st')
    ensures st'.nodes[i].term == st.nodes[i].term && st'.nodes[i].role == Leader
  {
    var self := Message(i, i, st.nodes[i].term, VoteResponse(true));
    var other := Message(v, i, st.nodes[i].term, VoteResponse(true));
    StillInFlight(st.messages, self, other);
    var st1 := Go(lg, n, st, Receive(self, TakeVoteResponse));
    var st2 := Go(lg, n, st1, Receive(other, TakeVoteResponse));
    assert st2.nodes[i].granted == {i, v};
    st' := Go(lg, n, st2, BecomeLeader(i));
  }

  /** Node i is elected in its next term through the vote of v. */
  lemma Elect(lg: LogGuards, n: nat, st: State, i: nat, v: nat) returns (st': State)
    requires LogReachable(lg, n, st) && n <= 3 && i in st.nodes && v in st.nodes && i != v
    requires st.nodes[v].term <= st.nodes[i].term && UpToDate(st.nodes[i], st.nodes[v])
    ensures LogReachable(lg, n, st') && KeepsLogs(st, st')
    ensures st'.nodes[i].role == Leader && st'.nodes[i].term == st.nodes[i].term + 1
    ensures st'.nodes[v].term == st.nodes[i].term + 1
    ensures forall k | k in st.nodes && k != i && k != v :: st'.nodes[k] == st.nodes[k]
  {
    var st1 := Campaign(lg, n, st, i, v);
    var st2 := GiveVote(lg, n, st1, i, v);
    var st3 := Send(lg, n, st2, v);
    st' := Win(lg, n, st3, i, v);
  }

  // ---------- requests ----------

  /** Node s offers its entries begin..end to node d, and the request is on the network. */
  lemma Offer(lg: LogGuards, n: nat, st: State, s: nat, d: nat, begin: nat, end: nat) returns (st': State, m: Message)
    requires LogReachable(lg, n, st) && s in st.nodes && 1 <= begin && 1 <= end && begin - 1 <= |st.nodes[s].log|
    ensures LogReachable(lg, n, st') && OthersSame(st, st', s) && SameButDisk(st.nodes[s], st'.nodes[s])
    ensures m in st'.messages && m == AppendMessage(st.nodes[s], s, d, App, begin, end)
  {
    var st1 := Go(lg, n, st, SendAppend(s, d, begin, end));
    m := AppendMessage(st.nodes[s], s, d, App, begin, end);
    assert m in st1.pending;
    st' := Send(lg, n, st1, s);
  }

  /** Node d extends its log with a request. */
  lemma Extend(lg: LogGuards, n: nat, st: State, m: Message) returns (st': State)
    requires LogReachable(lg, n, st) && Callable(st, Receive(m, AppendExtend))
    requires LogAllowed(lg, st, Receive(m, AppendExtend))
    ensures LogReachable(lg, n, st') && OthersSame(st, st', m.dst) && m in st'.messages
    ensures var log := st.nodes[m.dst].log;
            st'.nodes[m.dst] == st.nodes[m.dst].(log := log + SliceFrom(m.body.entries, |log| - m.body.prev))
  {
    st' := Go(lg, n, st, Receive(m, AppendExtend));
  }

  // ---------- leaders with different logs ----------

  lemma StartFresh(lg: LogGuards, n: nat) returns (st: State)
    requires 2 <= n <= 3
    ensures LogReachable(lg, n, st) && st.nodes.Keys == Ids(n)
    ensures forall i | i in st.nodes :: st.nodes[i] == InitialNode(n)
  {
    InitialLogReachable(lg, n);
    st := Initial(n);
  }

  /** A fresh node's place in a conflict: its log, with nothing committed. */
  predicate HasLog(st: State, n: nat, i: nat, log: seq<nat>) {
    i in st.nodes && st.nodes[i].log == log && st.nodes[i].commit == 0 && |st.nodes[i].matched| == n
  }

  predicate LeadsWith(st: State, n: nat, i: nat, term: nat, log: seq<nat>) {
    HasLog(st, n, i, log) && st.nodes[i].role == Leader && st.nodes[i].term == term
  }

  /** A leader takes a client request. */
  lemma TakeRequest(lg: LogGuards, n: nat, st: State, i: nat, term: nat, log: seq<nat>) returns (st': State)
    requires LogReachable(lg, n, st) && LeadsWith(st, n, i, term, log)
    ensures LogReachable(lg, n, st') && LeadsWith(st', n, i, term, log + [term]) && OthersSame(st, st', i)
  {
    st' := Go(lg, n, st, ClientRequest(i));
  }

  /** Node 1 leads term 1 with the log [1], node 2 leads term 2 with an empty log. */
  lemma TwoLeaders(lg: LogGuards) returns (st: State)
    ensures LogReachable(lg, 3, st) && LeadsWith(st, 3, 1, 1, [1]) && LeadsWith(st, 3, 2, 2, [])
  {
    var st0 := StartFresh(lg, 3);
    assert 1 in Ids(3) && 2 in Ids(3) && 3 in Ids(3);
    var st1 := Elect(lg, 3, st0, 1, 3);
    var st2 := Go(lg, 3, st1, Timeout(2));
    var st3 := Elect(lg, 3, st2, 2, 3);
    assert [] + [1] == [1];
    st := TakeRequest(lg, 3, st3, 1, 1, []);
  }

  lemma FirstLeader(lg: LogGuards) returns (st: State)
    ensures LogReachable(lg, 2, st) && LeadsWith(st, 2, 1, 1, [1]) && HasLog(st, 2, 2, []) && st.nodes[2].term == 1
  {
    var st0 := StartFresh(lg, 2);
    assert 1 in Ids(2) && 2 in Ids(2);
    var st1 := Elect(lg, 2, st0, 1, 2);
    assert [] + [1] == [1];
    st := TakeRequest(lg, 2, st1, 1, 1, []);
  }

  /** Node 1 leads term 2 of two voters with the log [1, 2, 2], which node 2 knows nothing of. */
  lemma LoneLeader(lg: LogGuards) returns (st: State)
    ensures LogReachable(lg, 2, st) && LeadsWith(st, 2, 1, 2, [1, 2, 2]) && HasLog(st, 2, 2, [])
  {
    var st0 := FirstLeader(lg);
    var st1 := Elect(lg, 2, st0, 1, 2);
    assert KeepsLog(st0.nodes[1], st1.nodes[1]) && KeepsLog(st0.nodes[2], st1.nodes[2]);
    assert [1] + [2] == [1, 2] && [1, 2] + [2] == [1, 2, 2];
    var st2 := TakeRequest(lg, 2, st1, 1, 2, [1]);
    st := TakeRequest(lg, 2, st2, 1, 2, [1, 2]);
  }

  // ---------- logs that do not match ----------

  /** Two logs of one length that end in the same entry, the term of node s, and are nevertheless different. */
  predicate Mismatched(st: State, n: nat, s: nat, d: nat, p: seq<nat>, q: seq<nat>) {
    && s != d && HasLog(st, n, s, p) && HasLog(st, n, d, q)
    && |p| == |q| > 0 && p != q && p[|p| - 1] == q[|q| - 1] == st.nodes[s].term
  }

  /** Any node takes a client request. */
  lemma TakeAnyway(lg: LogGuards, st: State, i: nat, term: nat, log: seq<nat>) returns (st': State)
    requires !lg.leaderAppends && LogReachable(lg, 2, st) && HasLog(st, 2, i, log) && st.nodes[i].term == term
    ensures LogReachable(lg, 2, st') && OthersSame(st, st', i)
    ensures HasLog(st', 2, i, log + [term]) && st'.nodes[i].term == term
  {
    st' := Go(lg, 2, st, ClientRequest(i));
  }

  lemma NextTerm(lg: LogGuards, st: State, i: nat, log: seq<nat>) returns (st': State)
    requires LogReachable(lg, 2, st) && HasLog(st, 2, i, log)
    ensures LogReachable(lg, 2, st') && OthersSame(st, st', i)
    ensures HasLog(st', 2, i, log) && st'.nodes[i].term == st.nodes[i].term + 1
  {
    st' := Go(lg, 2, st, Timeout(i));
  }

  lemma WithoutLeaderAppends(lg: LogGuards) returns (st: State)
    requires !lg.leaderAppends
    ensures LogReachable(lg, 2, st) && Mismatched(st, 2, 1, 2, [0, 1], [1, 1])
  {
    var st0 := StartFresh(lg, 2);
    assert 1 in Ids(2) && 2 in Ids(2);
    var st1 := TakeAnyway(lg, st0, 1, 0, []);
    var st2 := NextTerm(lg, st1, 1, [0]);
    var st3 := TakeAnyway(lg, st2, 1, 1, [0]);
    var st4 := NextTerm(lg, st3, 2, []);
    var st5 := TakeAnyway(lg, st4, 2, 1, []);
    st := TakeAnyway(lg, st5, 2, 1, [1]);
  }

  /** The leader offers its second entry and then, twice, its third to an empty log. */
  lemma WithoutReach(lg: LogGuards) returns (st: State)
    requires !lg.reaches
    ensures LogReachable(lg, 2, st) && Mismatched(st, 2, 1, 2, [1, 2, 2], [2, 2, 2])
  {
    var st0 := LoneLeader(lg);
    var st1 := OfferToEmpty(lg, st0);
    var st2, m := Offer(lg, 2, st1, 1, 2, 3, 4);
    assert [1, 2, 2][2..3] == [2];
    assert SliceFrom([2], -1) == [2] && SliceFrom([2], 0) == [2];
    var st3 := Extend(lg, 2, st2, m);
    assert st3.nodes[2].log == [2, 2];
    st := Extend(lg, 2, st3, m);
    assert st.nodes[2].log == [2, 2, 2];
  }

  lemma OfferToEmpty(lg: LogGuards, st: State) returns (st': State)
    requires !lg.reaches && LogReachable(lg, 2, st) && LeadsWith(st, 2, 1, 2, [1, 2, 2]) && HasLog(st, 2, 2, [])
    ensures LogReachable(lg, 2, st') && LeadsWith(st', 2, 1, 2, [1, 2, 2]) && HasLog(st', 2, 2, [2])
  {
    var st1, m := Offer(lg, 2, st, 1, 2, 2, 3);
    assert [1, 2, 2][1..2] == [2];
    assert SliceFrom([2], -1) == [2];
    st' := Extend(lg, 2, st1, m);
    assert [] + [2] == [2];
  }

  /** Node 2 leads with [2, 2] beside node 1, which leads with [1]. */
  lemma TwoEntriesLead(lg: LogGuards) returns (st: State)
    ensures LogReachable(lg, 3, st) && LeadsWith(st, 3, 1, 1, [1]) && LeadsWith(st, 3, 2, 2, [2, 2])
  {
    var st0 := TwoLeaders(lg);
    assert [] + [2] == [2] && [2] + [2] == [2, 2];
    var st1 := TakeRequest(lg, 3, st0, 2, 2, []);
    st := TakeRequest(lg, 3, st1, 2, 2, [2]);
  }

  /** Node 2 offers its second entry to node 1, whose first entry is of another term. */
  lemma WithoutPreviousTerm(lg: LogGuards) returns (st: State)
    requires !lg.previousTerm
    ensures LogReachable(lg, 3, st) && Mismatched(st, 3, 2, 1, [2, 2], [1, 2])
  {
    var st0 := TwoEntriesLead(lg);
    var st1, m := Offer(lg, 3, st0, 2, 1, 2, 3);
    assert [2, 2][1..2] == [2] && SliceFrom([2], 0) == [2];
    st := Extend(lg, 3, st1, m);
    assert [1] + [2] == [1, 2];
  }

  /** Node 2 offers both its entries to node 1, whose first entry is another. */
  lemma WithoutOverlap(lg: LogGuards) returns (st: State)
    requires !lg.overlaps
    ensures LogReachable(lg, 3, st) && Mismatched(st, 3, 2, 1, [2, 2], [1, 2])
  {
    var st0 := TwoEntriesLead(lg);
    var st1, m := Offer(lg, 3, st0, 2, 1, 1, 3);
    assert [2, 2][0..2] == [2, 2] && SliceFrom([2, 2], 1) == [2];
    st := Extend(lg, 3, st1, m);
    assert [1] + [2] == [1, 2];
  }

  /** Without one of the first four guards a run ends in mismatched logs. */
  lemma SomeMismatch(lg: LogGuards) returns (st: State, n: nat, s: nat, d: nat, p: seq<nat>, q: seq<nat>)
    requires !MatchGuards(lg)
    ensures 2 <= n <= 3 && LogReachable(lg, n, st) && Mismatched(st, n, s, d, p, q)
  {
    if !lg.leaderAppends {
      st := WithoutLeaderAppends(lg);
      n, s, d, p, q := 2, 1, 2, [0, 1], [1, 1];
    } else if !lg.reaches {
      st := WithoutReach(lg);
      n, s, d, p, q := 2, 1, 2, [1, 2, 2], [2, 2, 2];
    } else if !lg.previousTerm {
      st := WithoutPreviousTerm(lg);
      n, s, d, p, q := 3, 2, 1, [2, 2], [1, 2];
    } else {
      st := WithoutOverlap(lg);
      n, s, d, p, q := 3, 2, 1, [2, 2], [1, 2];
    }
  }

  // ---------- conflicting commits ----------

  /** Two logs of one length, the first ending in the term of node s, that differ. */
  predicate Conflicting(lg: LogGuards, st: State, n: nat, s: nat, d: nat, p: seq<nat>, q: seq<nat>) {
    && s != d && HasLog(st, n, s, p) && HasLog(st, n, d, q)
    && |p| == |q| > 0 && p != q && p[|p| - 1] == st.nodes[s].term
    && (lg.finishesQuoted ==> p[|p| - 1] == q[|q| - 1])
  }

  /** Node s asks d to confirm everything it has, and d does. */
  lemma Confirm(lg: LogGuards, n: nat, st: State, s: nat, d: nat, p: seq<nat>, q: seq<nat>)
    returns (st': State, m: Message)
    requires LogReachable(lg, n, st) && s in st.nodes && d in st.nodes && s != d && |p| == |q| > 0
    requires st.nodes[s].log == p && st.nodes[d].log == q && st.nodes[s].commit <= |p| && st.nodes[d].commit == 0
    requires lg.finishesQuoted ==> p[|p| - 1] == q[|q| - 1]
    ensures LogReachable(lg, n, st') && st'.nodes.Keys == st.nodes.Keys
    ensures SameButDisk(st.nodes[s], st'.nodes[s])
    ensures st'.nodes[d] == st.nodes[d].(commit := st.nodes[s].commit)
    ensures m in st'.pending && m.src == d && m.dst == s && m.body == AppendResponse(App, true, |p|)
  {
    var st1, request := Offer(lg, n, st, s, d, |p| + 1, |p| + 1);
    assert request.body == AppendRequest(App, |p|, p[|p| - 1], [], st.nodes[s].commit);
    assert Installed(q, |p|, []);
    st' := Go(lg, n, st1, Receive(request, AppendDone));
    m := Message(d, s, st1.nodes[d].term, AppendResponse(App, true, |p|));
    assert m in st'.pending;
  }

  /** Node s counts an acknowledgement of its whole log. */
  lemma Count(lg: LogGuards, n: nat, st: State, s: nat, m: Message) returns (st': State)
    requires LogReachable(lg, n, st) && s in st.nodes && m in st.pending && m.dst == s && m.src in st.nodes
    requires 1 <= m.src <= |st.nodes[s].matched| && m.body.AppendResponse?
    ensures LogReachable(lg, n, st') && st'.nodes.Keys == st.nodes.Keys
    ensures forall k | k in st.nodes && k != s :: SameButDisk(st.nodes[k], st'.nodes[k])
    ensures var was, now := st.nodes[s], st'.nodes[s];
            && now.log == was.log && now.commit == was.commit && now.term == was.term
            && now.matched == was.matched[m.src - 1 := Max(was.matched[m.src - 1], m.body.matched)]
  {
    var st1 := Send(lg, n, st, m.src);
    st' := Go(lg, n, st1, Receive(m, TakeAppendResponse));
  }

  lemma CountOwn(lg: LogGuards, n: nat, st: State, s: nat) returns (st': State)
    requires LogReachable(lg, n, st) && s in st.nodes && 1 <= s <= |st.nodes[s].matched|
    ensures LogReachable(lg, n, st') && st'.nodes.Keys == st.nodes.Keys
    ensures forall k | k in st.nodes && k != s :: SameButDisk(st.nodes[k], st'.nodes[k])
    ensures var was, now := st.nodes[s], st'.nodes[s];
            && now.log == was.log && now.commit == was.commit && now.term == was.term
            && now.matched == was.matched[s - 1 := Max(was.matched[s - 1], |was.log|)]
  {
    var st1 := Go(lg, n, st, SelfAppend(s));
    var own := Message(s, s, st.nodes[s].term, AppendResponse(App, true, |st.nodes[s].log|));
    assert own in st1.pending;
    st' := Count(lg, n, st1, s, own);
  }

  lemma {:induction false} CountOne(matched: seq<nat>, k: nat, i: nat)
    requires i < |matched| && matched[i] >= k
    ensures CountAtLeast(matched, k) >= 1
  {
    if i > 0 {
      CountOne(matched[1..], k, i - 1);
    }
  }

  lemma {:induction false} CountTwo(matched: seq<nat>, k: nat, i: nat, j: nat)
    requires i < j < |matched| && matched[i] >= k && matched[j] >= k
    ensures CountAtLeast(matched, k) >= 2
  {
    if i > 0 {
      CountTwo(matched[1..], k, i - 1, j - 1);
    } else {
      CountOne(matched[1..], k, j - 1);
    }
  }

  /** With two of at most three voters matching its whole log, which ends in its own term, node s commits it. */
  lemma CommitAll(lg: LogGuards, n: nat, st: State, s: nat, d: nat) returns (st': State)
    requires LogReachable(lg, n, st) && s in st.nodes && 2 <= n <= 3 && 1 <= s <= n && 1 <= d <= n && s != d
    requires var node := st.nodes[s];
             && |node.matched| == n && node.log != [] && node.log[|node.log| - 1] == node.term && node.commit == 0
             && node.matched[s - 1] >= |node.log| && node.matched[d - 1] >= |node.log|
    ensures LogReachable(lg, n, st') && OthersSame(st, st', s)
    ensures st'.nodes[s].log == st.nodes[s].log && st'.nodes[s].commit == |st.nodes[s].log|
  {
    var node := st.nodes[s];
    CountTwo(node.matched, |node.log|, Min(s, d) - 1, Max(s, d) - 1);
    assert Agreed(node.matched, |node.log|);
    st' := Go(lg, n, st, AdvanceCommit(s));
  }

  /** Where two nodes' logs conflict, the first can come to match both logs in full. */
  lemma ConflictMatched(lg: LogGuards, n: nat, st: State, s: nat, d: nat, p: seq<nat>, q: seq<nat>) returns (st': State)
    requires LogReachable(lg, n, st) && 1 <= s <= n && 1 <= d <= n && Conflicting(lg, st, n, s, d, p, q)
    ensures LogReachable(lg, n, st') && HasLog(st', n, s, p) && HasLog(st', n, d, q)
    ensures var node := st'.nodes[s];
            node.term == st.nodes[s].term && node.matched[s - 1] >= |p| && node.matched[d - 1] >= |p|
  {
    var st1, m := Confirm(lg, n, st, s, d, p, q);
    var st2 := Count(lg, n, st1, s, m);
    assert SameButDisk(st1.nodes[d], st2.nodes[d]);
    st' := CountOwn(lg, n, st2, s);
    assert SameButDisk(st2.nodes[d], st'.nodes[d]);
  }

  /** ... and then both can commit them. */
  lemma ConflictCommits(lg: LogGuards, n: nat, st: State, s: nat, d: nat, p: seq<nat>, q: seq<nat>) returns (st': State)
    requires LogReachable(lg, n, st) && 2 <= n <= 3 && 1 <= s <= n && 1 <= d <= n
    requires Conflicting(lg, st, n, s, d, p, q)
    ensures LogReachable(lg, n, st') && s in st'.nodes && d in st'.nodes
    ensures st'.nodes[s].log == p && st'.nodes[d].log == q && st'.nodes[s].commit == st'.nodes[d].commit == |p|
  {
    var st1 := ConflictMatched(lg, n, st, s, d, p, q);
    var st2 := CommitAll(lg, n, st1, s, d);
    var m;
    st', m := Confirm(lg, n, st2, s, d, p, q);
  }

  /** Node 2 leads with [2] beside node 1, which leads with [1]. */
  lemma WithoutQuotes(lg: LogGuards) returns (st: State)
    requires !lg.finishesQuoted
    ensures LogReachable(lg, 3, st) && Conflicting(lg, st, 3, 2, 1, [2], [1])
  {
    var st0 := TwoLeaders(lg);
    assert [] + [2] == [2];
    st := TakeRequest(lg, 3, st0, 2, 2, []);
  }

  lemma SomeConflict(lg: LogGuards) returns (st: State, n: nat, s: nat, d: nat, p: seq<nat>, q: seq<nat>)
    requires lg != ALL_LOG_GUARDS
    ensures 2 <= n <= 3 && LogReachable(lg, n, st) && Conflicting(lg, st, n, s, d, p, q)
  {
    if !MatchGuards(lg) {
      st, n, s, d, p, q := SomeMismatch(lg);
    } else {
      st := WithoutQuotes(lg);
      n, s, d, p, q := 3, 2, 1, [2], [1];
    }
  }
}
