/**
 Replication over whole runs: requests quote their sender's log, and two logs with the same entry at
 an index agree up to it.
 */
module RaftReplication {
  import opened Common
  import opened RaftInterpreter
  import opened RaftElection
  import opened RaftLogs

  // ---------- runs under log guards ----------

  datatype LogGuards = LogGuards(
    leaderAppends: bool,    // only a leader takes client requests
    reaches: bool,          // a log is extended only by a request that starts within it or at its end
    previousTerm: bool,     // ... whose previous term is that of the entry before it
    overlaps: bool,         // ... and which agrees with the log where they overlap
    finishesQuoted: bool)   // a request is finished only when the log holds what it quotes

  const ALL_LOG_GUARDS := LogGuards(true, true, true, true, true)

  /** The guards that log matching depends on. */
  predicate MatchGuards(lg: LogGuards) {
    lg.leaderAppends && lg.reaches && lg.previousTerm && lg.overlaps
  }

  predicate PreviousTermAgrees(log: seq<nat>, body: Body)
    requires body.AppendRequest?
  {
    0 < body.prev <= |log| ==> log[body.prev - 1] == body.prevTerm
  }

  /** The request's entries and the entry before them are in the log. */
  predicate Quotes(log: seq<nat>, body: Body)
    requires body.AppendRequest?
  {
    Installed(log, body.prev, body.entries) && PreviousTermAgrees(log, body)
  }

  /** The log reaches the request, has its previous term where it should, and agrees with it on the overlap. */
  predicate FollowsOn(log: seq<nat>, body: Body)
    requires body.AppendRequest?
  {
    body.prev <= |log| && PreviousTermAgrees(log, body) && OverlapAgrees(log, body.prev, body.entries)
  }

  predicate LogAllowed(lg: LogGuards, st: State, a: Action)
    requires Callable(st, a)
  {
    match a
    case ClientRequest(i) => lg.leaderAppends ==> st.nodes[i].role == Leader
    case Receive(m, AppendExtend) =>
      var log := st.nodes[m.dst].log;
      && (lg.reaches ==> m.body.prev <= |log|)
      && (lg.previousTerm ==> PreviousTermAgrees(log, m.body))
      && (lg.overlaps ==> OverlapAgrees(log, m.body.prev, m.body.entries))
    case Receive(m, AppendDone) => lg.finishesQuoted ==> Quotes(st.nodes[m.dst].log, m.body)
    case _ => true
  }

  /** A run that respects the election guards and these log guards. */
  predicate IsLoggedRun(lg: LogGuards, n: nat, b: seq<State>, acts: seq<Action>) {
    && IsRun(ALL_GUARDS, n, b, acts)
    && forall k {:trigger acts[k]} | 0 <= k < |acts| :: Callable(b[k], acts[k]) && LogAllowed(lg, b[k], acts[k])
  }

  // ---------- requests quote their sender's log ----------

  /** The messages after a step are those before it and at most one new one. */
  function NewMessage(st: State, a: Action): Option<Message>
    requires Callable(st, a) && !Raises(st, a)
  {
    var n := st.nodes[Actor(a)];
    match a
    case Receive(m, TakeVoteRequest) => Some(Message(m.dst, m.src, n.term, VoteResponse(true)))
    case Receive(m, AppendDone) =>
      Some(Message(m.dst, m.src, n.term, AppendResponse(m.body.mode, true, m.body.prev + |m.body.entries|)))
    case RequestVote(i, j) =>
      Some(Message(i, j, n.term, if i == j then VoteResponse(true) else VoteRequest(LastTerm(n.log), |n.log|)))
    case SelfAppend(i) => Some(Message(i, i, n.term, AppendResponse(App, true, |n.log|)))
    case SendAppend(i, j, begin, end) => Some(AppendMessage(n, i, j, App, begin, end))
    case SendSnapshot(i, j, index) => Some(AppendMessage(n, i, j, Snapshot, 1, index + 1))
    case _ => None
  }

  lemma PendingOldOrNew(st: State, a: Action, m: Message)
    requires Callable(st, a) && !Raises(st, a) && m in Apply(st, a).pending
    ensures m in st.pending || NewMessage(st, a) == Some(m)
  {
  }

  lemma InFlightIsOld(st: State, a: Action, m: Message)
    requires Callable(st, a) && !Raises(st, a) && m in Apply(st, a).messages
    ensures m in st.messages || m in st.pending
  {
    if a.Receive? {
      RemoveMembers(st.messages, a.m);
    }
  }

  lemma OldOrNew(st: State, a: Action, m: Message)
    requires Callable(st, a) && !Raises(st, a)
    requires m in Apply(st, a).pending || m in Apply(st, a).messages
    ensures m in st.pending + st.messages || NewMessage(st, a) == Some(m)
  {
    if m in Apply(st, a).pending {
      PendingOldOrNew(st, a, m);
    } else {
      InFlightIsOld(st, a, m);
    }
  }

  lemma InstalledStays(log: seq<nat>, log': seq<nat>, prev: nat, entries: seq<nat>)
    requires Installed(log, prev, entries) && log <= log'
    ensures Installed(log', prev, entries)
  {
    assert log'[prev..prev + |entries|] == log[prev..prev + |entries|];
  }

  predicate RequestsQuote(st: State) {
    forall m | m in st.pending + st.messages && m.body.AppendRequest? ::
      m.src in st.nodes && Quotes(st.nodes[m.src].log, m.body)
  }

  lemma QuotesLonger(log: seq<nat>, log': seq<nat>, body: Body)
    requires body.AppendRequest? && Quotes(log, body) && log <= log'
    ensures Quotes(log', body)
  {
    InstalledStays(log, log', body.prev, body.entries);
  }

  lemma AppendQuotes(node: Node, i: nat, j: nat, mode: Mode, begin: nat, end: nat)
    requires 1 <= begin && 1 <= end && begin - 1 <= |node.log|
    ensures Quotes(node.log, AppendMessage(node, i, j, mode, begin, end).body)
  {
  }

  /** A new append request is built from the sender's own node. */
  lemma NewRequestShape(st: State, a: Action, m: Message)
    requires Callable(st, a) && !Raises(st, a) && NewMessage(st, a) == Some(m) && m.body.AppendRequest?
    ensures a.SendAppend? || a.SendSnapshot?
    ensures a.SendAppend? ==> m == AppendMessage(st.nodes[a.i], a.i, a.j, App, a.begin, a.end)
    ensures a.SendSnapshot? ==> m == AppendMessage(st.nodes[a.i], a.i, a.j, Snapshot, 1, a.index + 1)
  {
  }

  /** An append request after a step quotes its sender's log as it was before. */
  lemma QuotesBefore(st: State, a: Action, m: Message)
    requires RequestsQuote(st) && Callable(st, a) && !Raises(st, a) && m.body.AppendRequest?
    requires m in Apply(st, a).pending || m in Apply(st, a).messages
    ensures m.src in st.nodes && Quotes(st.nodes[m.src].log, m.body)
  {
    OldOrNew(st, a, m);
    if NewMessage(st, a) == Some(m) {
      NewRequestShape(st, a, m);
      if a.SendAppend? {
        AppendQuotes(st.nodes[a.i], a.i, a.j, App, a.begin, a.end);
      } else {
        AppendQuotes(st.nodes[a.i], a.i, a.j, Snapshot, 1, a.index + 1);
      }
    }
  }

  lemma StepKeepsQuotes(g: Guards, n: nat, st: State, a: Action, st': State)
    requires RequestsQuote(st) && Step(g, n, st, a, st')
    ensures RequestsQuote(st')
  {
    StepGrows(g, n, st, a, st');
    forall m | m in st'.pending + st'.messages && m.body.AppendRequest?
      ensures m.src in st'.nodes && Quotes(st'.nodes[m.src].log, m.body)
    {
      QuotesBefore(st, a, m);
      QuotesLonger(st.nodes[m.src].log, st'.nodes[m.src].log, m.body);
    }
  }

  lemma {:induction false} RunQuotes(g: Guards, n: nat, b: seq<State>, acts: seq<Action>, k: nat)
    requires IsRun(g, n, b, acts) && k < |b|
    ensures RequestsQuote(b[k])
  {
    if k > 0 {
      RunQuotes(g, n, b, acts, k - 1);
      NthStep(g, n, b, acts, k - 1);
      StepKeepsQuotes(g, n, b[k - 1], acts[k - 1], b[k]);
    }
  }

  /** A request once extended under its guards is from then on quoted by the receiver's log, so it may be finished. */
  lemma ExtendedIsQuoted(lg: LogGuards, n: nat, b: seq<State>, acts: seq<Action>, k: nat, k': nat, m: Message)
    requires IsLoggedRun(lg, n, b, acts) && MatchGuards(lg) && k < k' < |b| && acts[k] == Receive(m, AppendExtend)
    ensures m.body.AppendRequest? && m.dst in b[k'].nodes && Quotes(b[k'].nodes[m.dst].log, m.body)
  {
    NthStep(ALL_GUARDS, n, b, acts, k);
    assert LogAllowed(lg, b[k], acts[k]);
    ExtendQuotes(b[k], m);
    RunGrows(ALL_GUARDS, n, b, acts, k + 1, k');
    QuotesLonger(b[k + 1].nodes[m.dst].log, b[k'].nodes[m.dst].log, m.body);
  }

  lemma ExtendQuotes(st: State, m: Message)
    requires Callable(st, Receive(m, AppendExtend)) && FollowsOn(st.nodes[m.dst].log, m.body)
    ensures Quotes(ApplyReceive(st, m, AppendExtend).nodes[m.dst].log, m.body)
  {
    ExtendInstallsIff(st, m);
  }

  // ---------- log matching ----------

  /** Node l has led term t by step k. */
  ghost predicate Led(b: seq<State>, k: nat, l: nat, t: nat)
    requires k < |b|
  {
    exists j | 0 <= j <= k :: LeaderIn(b[j], l, t)
  }

  /** Up to and including x, the log is that of a node which has led the term of its entry x. */
  ghost predicate FromLeader(b: seq<State>, k: nat, log: seq<nat>, x: nat)
    requires k < |b| && x < |log|
  {
    exists l: nat :: Led(b, k, l, log[x]) && SharesPrefix(b[k], l, log, x)
  }

  predicate SharesPrefix(st: State, l: nat, log: seq<nat>, x: nat)
    requires x < |log|
  {
    l in st.nodes && x < |st.nodes[l].log| && log[..x + 1] == st.nodes[l].log[..x + 1]
  }

  ghost predicate LogFromLeaders(b: seq<State>, k: nat, log: seq<nat>)
    requires k < |b|
  {
    forall x | 0 <= x < |log| :: FromLeader(b, k, log, x)
  }

  ghost predicate AllFromLeaders(b: seq<State>, k: nat)
    requires k < |b|
  {
    forall i | i in b[k].nodes :: LogFromLeaders(b, k, b[k].nodes[i].log)
  }

  lemma OneLeaderEver(n: nat, b: seq<State>, acts: seq<Action>, k: nat, l: nat, l': nat, t: nat)
    requires IsRun(ALL_GUARDS, n, b, acts) && k < |b| && Led(b, k, l, t) && Led(b, k, l', t)
    ensures l == l'
  {
    var j :| 0 <= j <= k && LeaderIn(b[j], l, t);
    var j' :| 0 <= j' <= k && LeaderIn(b[j'], l', t);
    if j <= j' {
      OneLeader(n, b, acts, j, j', l, l', t);
    } else {
      OneLeader(n, b, acts, j', j, l', l, t);
    }
  }

  /** Two logs that come from leaders agree up to any index where they have the same entry. */
  lemma FromLeadersMatch(n: nat, b: seq<State>, acts: seq<Action>, k: nat, p: seq<nat>, q: seq<nat>, x: nat)
    requires IsRun(ALL_GUARDS, n, b, acts) && k < |b| && x < |p| && x < |q| && p[x] == q[x]
    requires FromLeader(b, k, p, x) && FromLeader(b, k, q, x)
    ensures p[..x + 1] == q[..x + 1]
  {
    var l: nat :| Led(b, k, l, p[x]) && SharesPrefix(b[k], l, p, x);
    var l': nat :| Led(b, k, l', q[x]) && SharesPrefix(b[k], l', q, x);
    OneLeaderEver(n, b, acts, k, l, l', p[x]);
  }

  lemma FromLeaderStays(b: seq<State>, k: nat, log: seq<nat>, log': seq<nat>, x: nat)
    requires k + 1 < |b| && x < |log| && x < |log'| && log'[..x + 1] == log[..x + 1]
    requires FromLeader(b, k, log, x) && Grows(b[k], b[k + 1])
    ensures FromLeader(b, k + 1, log', x)
  {
    var l: nat :| Led(b, k, l, log[x]) && SharesPrefix(b[k], l, log, x);
    assert log'[x] == log'[..x + 1][x] == log[x];
    var j :| 0 <= j <= k && LeaderIn(b[j], l, log[x]);
    assert Led(b, k + 1, l, log'[x]);
    assert b[k].nodes[l].log <= b[k + 1].nodes[l].log;
    assert b[k + 1].nodes[l].log[..x + 1] == b[k].nodes[l].log[..x + 1];
    assert SharesPrefix(b[k + 1], l, log', x);
  }

  /** Extending under the guard leaves the log alone or makes it a prefix of the sender's. */
  lemma ExtendedIsPrefix(n: nat, b: seq<State>, acts: seq<Action>, k: nat, log: seq<nat>, sender: seq<nat>, body: Body)
    requires IsRun(ALL_GUARDS, n, b, acts) && k < |b| && body.AppendRequest? && Quotes(sender, body)
    requires LogFromLeaders(b, k, log) && LogFromLeaders(b, k, sender) && FollowsOn(log, body)
    ensures var log' := log + SliceFrom(body.entries, |log| - body.prev);
            log' == log || log' <= sender
  {
    var prev, entries := body.prev, body.entries;
    if |log| < prev + |entries| {
      if prev > 0 {
        FromLeadersMatch(n, b, acts, k, log, sender, prev - 1);
      }
      PrefixByParts(log, sender, prev, entries);
    }
  }

  lemma PrefixByParts(log: seq<nat>, sender: seq<nat>, prev: nat, entries: seq<nat>)
    requires Installed(sender, prev, entries) && prev <= |log| < prev + |entries| && OverlapAgrees(log, prev, entries)
    requires log[..prev] == sender[..prev]
    ensures log + SliceFrom(entries, |log| - prev) <= sender
  {
    var log' := log + entries[|log| - prev..];
    forall x | 0 <= x < |log'|
      ensures log'[x] == sender[x]
    {
      if x < prev {
        assert log[x] == log[..prev][x] == sender[..prev][x];
      } else {
        assert sender[x] == sender[prev..prev + |entries|][x - prev] == entries[x - prev];
      }
    }
    assert log' == sender[..|log'|];
  }

  /** A log entry that a step has added, or that was there, comes from a leader. */
  lemma StepFromLeader(lg: LogGuards, n: nat, b: seq<State>, acts: seq<Action>, k: nat, i: nat, x: nat)
    requires IsLoggedRun(lg, n, b, acts) && MatchGuards(lg) && k < |acts| && AllFromLeaders(b, k)
    requires i in b[k + 1].nodes && x < |b[k + 1].nodes[i].log|
    ensures FromLeader(b, k + 1, b[k + 1].nodes[i].log, x)
  {
    var a := acts[k];
    NthStep(ALL_GUARDS, n, b, acts, k);
    StepGrows(ALL_GUARDS, n, b[k], a, b[k + 1]);
    var log, log' := b[k].nodes[i].log, b[k + 1].nodes[i].log;
    if x < |log| {
      assert log <= log';
      FromLeaderStays(b, k, log, log', x);
    } else if a.ClientRequest? {
      LeaderAppends(lg, n, b, acts, k, i, x);
    } else {
      ReplicaExtends(lg, n, b, acts, k, i, x);
    }
  }

  lemma LeaderAppends(lg: LogGuards, n: nat, b: seq<State>, acts: seq<Action>, k: nat, i: nat, x: nat)
    requires IsLoggedRun(lg, n, b, acts) && MatchGuards(lg) && k < |acts| && acts[k].ClientRequest?
    requires Step(ALL_GUARDS, n, b[k], acts[k], b[k + 1])
    requires i in b[k + 1].nodes && i in b[k].nodes && |b[k].nodes[i].log| <= x < |b[k + 1].nodes[i].log|
    ensures FromLeader(b, k + 1, b[k + 1].nodes[i].log, x)
  {
    var log' := b[k + 1].nodes[i].log;
    assert LogAllowed(lg, b[k], acts[k]);
    assert i == acts[k].i && log'[x] == b[k].nodes[i].term;
    assert LeaderIn(b[k], i, log'[x]);
    assert Led(b, k + 1, i, log'[x]) && SharesPrefix(b[k + 1], i, log', x);
  }

  /** Besides client requests, only extending makes a log longer. */
  lemma LongerByExtending(st: State, a: Action, i: nat)
    requires Callable(st, a) && !Raises(st, a) && !a.ClientRequest? && i in st.nodes && i in Apply(st, a).nodes
    requires |st.nodes[i].log| < |Apply(st, a).nodes[i].log|
    ensures a.Receive? && a.how == AppendExtend && a.m.dst == i
    ensures var log := st.nodes[i].log;
            Apply(st, a).nodes[i].log == log + SliceFrom(a.m.body.entries, |log| - a.m.body.prev)
  {
  }

  lemma RequestQuotes(g: Guards, n: nat, b: seq<State>, acts: seq<Action>, k: nat, m: Message)
    requires IsRun(g, n, b, acts) && k < |b| && m in b[k].messages && m.body.AppendRequest?
    ensures m.src in b[k].nodes && Quotes(b[k].nodes[m.src].log, m.body)
  {
    RunQuotes(g, n, b, acts, k);
    assert m in b[k].pending + b[k].messages;
  }

  lemma GuardedFollowsOn(lg: LogGuards, st: State, m: Message)
    requires Callable(st, Receive(m, AppendExtend)) && LogAllowed(lg, st, Receive(m, AppendExtend)) && MatchGuards(lg)
    ensures FollowsOn(st.nodes[m.dst].log, m.body)
  {
  }

  lemma LoggedExtension(lg: LogGuards, n: nat, b: seq<State>, acts: seq<Action>, k: nat, i: nat) returns (m: Message)
    requires IsLoggedRun(lg, n, b, acts) && MatchGuards(lg) && k < |acts| && !acts[k].ClientRequest?
    requires i in b[k].nodes && i in b[k + 1].nodes && |b[k].nodes[i].log| < |b[k + 1].nodes[i].log|
    ensures m in b[k].messages && m.dst == i && m.body.AppendRequest? && FollowsOn(b[k].nodes[i].log, m.body)
    ensures b[k + 1].nodes[i].log == b[k].nodes[i].log + SliceFrom(m.body.entries, |b[k].nodes[i].log| - m.body.prev)
  {
    NthStep(ALL_GUARDS, n, b, acts, k);
    LongerByExtending(b[k], acts[k], i);
    m := acts[k].m;
    GuardedFollowsOn(lg, b[k], m);
  }

  lemma ReplicaExtends(lg: LogGuards, n: nat, b: seq<State>, acts: seq<Action>, k: nat, i: nat, x: nat)
    requires IsLoggedRun(lg, n, b, acts) && MatchGuards(lg) && k < |acts| && !acts[k].ClientRequest?
    requires AllFromLeaders(b, k) && Grows(b[k], b[k + 1])
    requires i in b[k + 1].nodes && |b[k].nodes[i].log| <= x < |b[k + 1].nodes[i].log|
    ensures FromLeader(b, k + 1, b[k + 1].nodes[i].log, x)
  {
    var m := LoggedExtension(lg, n, b, acts, k, i);
    RequestQuotes(ALL_GUARDS, n, b, acts, k, m);
    NodeFromLeaders(b, k, i);
    NodeFromLeaders(b, k, m.src);
    ExtendedFromLeader(n, b, acts, k, b[k].nodes[i].log, b[k].nodes[m.src].log, m.body, x);
  }

  lemma NodeFromLeaders(b: seq<State>, k: nat, i: nat)
    requires k < |b| && AllFromLeaders(b, k) && i in b[k].nodes
    ensures LogFromLeaders(b, k, b[k].nodes[i].log)
  {
  }

  lemma ExtendedFromLeader(
    n: nat, b: seq<State>, acts: seq<Action>, k: nat, log: seq<nat>, sender: seq<nat>, body: Body, x: nat)
    requires IsRun(ALL_GUARDS, n, b, acts) && k + 1 < |b| && Grows(b[k], b[k + 1])
    requires body.AppendRequest? && Quotes(sender, body) && FollowsOn(log, body)
    requires LogFromLeaders(b, k, log) && LogFromLeaders(b, k, sender)
    requires |log| <= x < |log + SliceFrom(body.entries, |log| - body.prev)|
    ensures FromLeader(b, k + 1, log + SliceFrom(body.entries, |log| - body.prev), x)
  {
    ExtendedIsPrefix(n, b, acts, k, log, sender, body);
    PrefixesFromLeader(b, k, sender, log + SliceFrom(body.entries, |log| - body.prev), x);
  }

  lemma PrefixesFromLeader(b: seq<State>, k: nat, sender: seq<nat>, log': seq<nat>, x: nat)
    requires k + 1 < |b| && Grows(b[k], b[k + 1]) && log' <= sender && x < |log'| && FromLeader(b, k, sender, x)
    ensures FromLeader(b, k + 1, log', x)
  {
    assert log'[..x + 1] == sender[..x + 1];
    FromLeaderStays(b, k, sender, log', x);
  }

  lemma {:induction false} RunFromLeaders(lg: LogGuards, n: nat, b: seq<State>, acts: seq<Action>, k: nat)
    requires IsLoggedRun(lg, n, b, acts) && MatchGuards(lg) && k < |b|
    ensures AllFromLeaders(b, k)
  {
    if k > 0 {
      RunFromLeaders(lg, n, b, acts, k - 1);
      forall i | i in b[k].nodes
        ensures LogFromLeaders(b, k, b[k].nodes[i].log)
      {
        forall x | 0 <= x < |b[k].nodes[i].log|
          ensures FromLeader(b, k, b[k].nodes[i].log, x)
        {
          StepFromLeader(lg, n, b, acts, k - 1, i, x);
        }
      }
    }
  }

  /** Log matching: two logs with the same entry at an index agree up to that index, in every state of every run. */
  lemma LogMatching(lg: LogGuards, n: nat, b: seq<State>, acts: seq<Action>, k: nat, i: nat, j: nat, x: nat)
    requires IsLoggedRun(lg, n, b, acts) && MatchGuards(lg) && k < |b| && i in b[k].nodes && j in b[k].nodes
    requires x < |b[k].nodes[i].log| && x < |b[k].nodes[j].log| && b[k].nodes[i].log[x] == b[k].nodes[j].log[x]
    ensures b[k].nodes[i].log[..x + 1] == b[k].nodes[j].log[..x + 1]
  {
    RunFromLeaders(lg, n, b, acts, k);
    FromLeadersMatch(n, b, acts, k, b[k].nodes[i].log, b[k].nodes[j].log, x);
  }
}
