/**
 The Raft step interpreter: state, actions, and the imperative `Run`.

 `Apply` says what one action does to the whole state; `Interpreter.Run` mutates the global state
 in place and is proved to do exactly that.  Indices in logs are 1-based, as in the interpreter.
 */
module RaftInterpreter {
  import opened Common
  import opened RaftMajority

  // ---------- data ----------

  datatype Role = Follower | Candidate | Leader

  datatype Mode = App | Snapshot

  datatype Body =
    | VoteRequest(lastTerm: nat, lastIndex: nat)
    | VoteResponse(granted: bool)
    | AppendRequest(mode: Mode, prev: nat, prevTerm: nat, entries: seq<nat>, commit: nat)
    | AppendResponse(mode: Mode, success: bool, matched: nat)

  datatype Message = Message(src: nat, dst: nat, term: nat, body: Body)

  datatype Disk = Disk(term: nat, vote: Option<nat>, log: seq<nat>, commit: nat)

  datatype Node = Node(
    term: nat, role: Role, vote: Option<nat>, log: seq<nat>, commit: nat,
    responded: set<nat>, granted: set<nat>, matched: seq<nat>, disk: Disk)

  datatype Ballot = Ballot(voter: nat, term: nat, candidate: nat)

  datatype State = State(nodes: map<nat, Node>, pending: seq<Message>, messages: seq<Message>, votes: set<Ballot>)

  datatype How = TakeTerm | TakeVoteRequest | TakeVoteResponse | AppendExtend | AppendDone | TakeAppendResponse

  datatype Action =
    | Receive(m: Message, how: How)
    | Timeout(i: nat)
    | RequestVote(i: nat, j: nat)
    | Ready(i: nat)
    | BecomeLeader(i: nat)
    | ClientRequest(i: nat)
    | StepDown(i: nat)
    | SelfAppend(i: nat)
    | SendAppend(i: nat, j: nat, begin: nat, end: nat)
    | SendSnapshot(i: nat, j: nat, index: nat)
    | AdvanceCommit(i: nat)

  function Ids(n: nat): (ids: set<nat>)
    ensures |ids| == n && forall i :: i in ids <==> 1 <= i <= n
  {
    if n == 0 then {} else Ids(n - 1) + {n}
  }

  function InitialNode(n: nat): Node {
    Node(0, Follower, None, [], 0, {}, {}, Zeros(n), Disk(0, None, [], 0))
  }

  function Zeros(n: nat): seq<nat> {
    seq(n, _ => 0)
  }

  function Initial(n: nat): State {
    State(map i | i in Ids(n) :: InitialNode(n), [], [], {})
  }

  // ---------- helpers that mirror library operations of the interpreter ----------

  function LastTerm(log: seq<nat>): nat {
    if log == [] then 0 else log[|log| - 1]
  }

  /** xs[k:] where a negative k counts from the end. */
  function SliceFrom<T>(xs: seq<T>, k: int): seq<T> {
    if k >= |xs| then []
    else if k >= 0 then xs[k..]
    else if -k >= |xs| then xs
    else xs[|xs| + k..]
  }

  /** Removes the first occurrence. */
  function Remove(ms: seq<Message>, m: Message): (r: seq<Message>)
    requires m in ms
    ensures multiset(r) == multiset(ms) - multiset{m}
  {
    if ms[0] == m then
      assert ms == [m] + ms[1..];
      ms[1..]
    else
      assert ms == [ms[0]] + ms[1..];
      [ms[0]] + Remove(ms[1..], m)
  }

  function From(ms: seq<Message>, i: nat): (r: seq<Message>)
    ensures forall m :: m in r <==> m in ms && m.src == i
  {
    if ms == [] then []
    else if ms[0].src == i then [ms[0]] + From(ms[1..], i)
    else From(ms[1..], i)
  }

  function NotFrom(ms: seq<Message>, i: nat): (r: seq<Message>)
    ensures forall m :: m in r <==> m in ms && m.src != i
  {
    if ms == [] then []
    else if ms[0].src != i then [ms[0]] + NotFrom(ms[1..], i)
    else NotFrom(ms[1..], i)
  }

  predicate Grants(m: Message) {
    m.body.VoteResponse? && m.body.granted
  }

  function BallotOf(m: Message): Ballot {
    Ballot(m.src, m.term, m.dst)
  }

  function Ballots(ms: seq<Message>): set<Ballot> {
    set m | m in ms && Grants(m) :: BallotOf(m)
  }

  // ---------- what an action needs and does ----------

  predicate Fits(how: How, body: Body) {
    match how
    case TakeTerm => true
    case TakeVoteRequest => body.VoteRequest?
    case TakeVoteResponse => body.VoteResponse?
    case AppendExtend => body.AppendRequest?
    case AppendDone => body.AppendRequest?
    case TakeAppendResponse => body.AppendResponse?
  }

  function Actor(a: Action): nat {
    if a.Receive? then a.m.dst else a.i
  }

  /** The callers' duty: the acting node exists, and a receive takes a message in flight in a way that fits it. */
  predicate Callable(st: State, a: Action) {
    && Actor(a) in st.nodes
    && (a.Receive? ==> a.m in st.messages && Fits(a.how, a.m.body))
    && (a.SendAppend? ==> 1 <= a.begin && 1 <= a.end)
  }

  predicate MayVote(n: Node, m: Message)
    requires m.body.VoteRequest?
  {
    && m.term == n.term && (n.vote.None? || n.vote == Some(m.src))
    && ( || m.body.lastTerm > LastTerm(n.log)
         || (m.body.lastTerm == LastTerm(n.log) && m.body.lastIndex >= |n.log|))
  }

  /** A failed assertion or an index error: nothing has changed when it is raised. */
  predicate Raises(st: State, a: Action)
    requires Callable(st, a)
  {
    var n := st.nodes[Actor(a)];
    match a
    case Receive(m, TakeVoteRequest) => !MayVote(n, m)
    case Receive(m, TakeAppendResponse) => !(1 <= m.src <= |n.matched|)
    case SendAppend(_, _, begin, _) => begin - 1 > |n.log|
    case _ => false
  }

  function AppendMessage(n: Node, i: nat, j: nat, mode: Mode, begin: nat, end: nat): Message
    requires 1 <= begin && 1 <= end && begin - 1 <= |n.log|
  {
    var prev := begin - 1;
    var last := Min(|n.log|, end - 1);
    Message(i, j, n.term, AppendRequest(
      mode, prev, if prev > 0 then n.log[prev - 1] else 0,
      if prev <= last then n.log[prev..last] else [],
      Min(n.commit, last)))
  }

  function WithNode(st: State, i: nat, n: Node): State {
    st.(nodes := st.nodes[i := n])
  }

  function Post(st: State, m: Message): State {
    st.(pending := st.pending + [m])
  }

  function Take(st: State, m: Message): State
    requires m in st.messages
  {
    st.(messages := Remove(st.messages, m))
  }

  function ApplyReceive(st: State, m: Message, how: How): State
    requires Callable(st, Receive(m, how)) && !Raises(st, Receive(m, how))
  {
    var i := m.dst;
    var n := st.nodes[i];
    match how
    case TakeTerm =>
      WithNode(st, i, n.(term := m.term, role := Follower, vote := None))
    case TakeVoteResponse =>
      WithNode(Take(st, m), i, n.(responded := n.responded + {m.src},
                                  granted := if m.body.granted then n.granted + {m.src} else n.granted))
    case TakeVoteRequest =>
      Post(WithNode(Take(st, m), i, n.(vote := Some(m.src))), Message(i, m.src, n.term, VoteResponse(true)))
    case TakeAppendResponse =>
      WithNode(Take(st, m), i, n.(matched := n.matched[m.src - 1 := Max(n.matched[m.src - 1], m.body.matched)]))
    case AppendExtend =>
      WithNode(st, i, n.(log := n.log + SliceFrom(m.body.entries, |n.log| - m.body.prev)))
    case AppendDone =>
      var upto := m.body.prev + |m.body.entries|;
      Post(WithNode(Take(st, m), i, n.(commit := Max(n.commit, Min(m.body.commit, upto)))),
           Message(i, m.src, n.term, AppendResponse(m.body.mode, true, upto)))
  }

  function ReadyState(st: State, i: nat): State
    requires i in st.nodes
  {
    var n := st.nodes[i];
    var out := From(st.pending, i);
    State(st.nodes[i := n.(disk := Disk(n.term, n.vote, n.log, n.commit))],
          NotFrom(st.pending, i), st.messages + out, st.votes + Ballots(out))
  }

  function Apply(st: State, a: Action): State
    requires Callable(st, a) && !Raises(st, a)
  {
    if a.Receive? then ApplyReceive(st, a.m, a.how)
    else
      var i := a.i;
      var n := st.nodes[i];
      match a
      case Timeout(_) =>
        WithNode(st, i, n.(term := n.term + 1, role := Candidate, vote := Some(i), responded := {}, granted := {}))
      case RequestVote(_, j) =>
        Post(st, Message(i, j, n.term, if i == j then VoteResponse(true) else VoteRequest(LastTerm(n.log), |n.log|)))
      case Ready(_) => ReadyState(st, i)
      case BecomeLeader(_) =>
        WithNode(st, i, n.(role := Leader, matched := LeaderMatched(|n.matched|, i, |n.log|)))
      case ClientRequest(_) => WithNode(st, i, n.(log := n.log + [n.term]))
      case StepDown(_) => WithNode(st, i, n.(role := Follower))
      case SelfAppend(_) => Post(st, Message(i, i, n.term, AppendResponse(App, true, |n.log|)))
      case SendAppend(_, j, begin, end) => Post(st, AppendMessage(n, i, j, App, begin, end))
      case SendSnapshot(_, j, index) => Post(st, AppendMessage(n, i, j, Snapshot, 1, index + 1))
      case AdvanceCommit(_) =>
        var k := MaxAgreed(n.matched, |n.log|);
        if k > 0 && n.log[k - 1] == n.term then WithNode(st, i, n.(commit := Max(n.commit, k))) else st
      case Receive(_, _) => st
  }

  function LeaderMatched(n: nat, i: nat, len: nat): seq<nat> {
    seq(n, k => if k + 1 == i then len else 0)
  }

  // ---------- the interpreter object ----------

  class Interpreter {
    var nodes: map<nat, Node>
    var pending: seq<Message>
    var messages: seq<Message>
    var votes: set<Ballot>

    ghost function Model(): State
      reads this
    {
      State(nodes, pending, messages, votes)
    }

    constructor (n: nat)
      ensures Model() == Initial(n)
    {
      nodes := map i | i in Ids(n) :: InitialNode(n);
      pending, messages, votes := [], [], {};
    }

    /** Runs one action; `ok` is false, and nothing has changed, where the interpreter raises. */
    method Run(a: Action) returns (ok: bool)
      requires Callable(Model(), a)
      modifies this
      ensures ok <==> !old(Raises(Model(), a))
      ensures ok ==> Model() == old(Apply(Model(), a))
      ensures !ok ==> Model() == old(Model())
    {
      if a.Receive? {
        ok := RunReceive(a.m, a.how);
        return;
      }
      var i := a.i;
      var n := nodes[i];
      ok := true;
      match a {
        case Timeout(_) =>
          n := n.(term := n.term + 1, role := Candidate, vote := Some(i), responded := {}, granted := {});
          nodes := nodes[i := n];
        case RequestVote(_, j) =>
          var body := if i == j then VoteResponse(true) else VoteRequest(LastTerm(n.log), |n.log|);
          pending := pending + [Message(i, j, n.term, body)];
        case Ready(_) =>
          nodes := nodes[i := n.(disk := Disk(n.term, n.vote, n.log, n.commit))];
          var out := From(pending, i);
          votes := votes + Ballots(out);
          messages := messages + out;
          pending := NotFrom(pending, i);
        case BecomeLeader(_) =>
          nodes := nodes[i := n.(role := Leader, matched := LeaderMatched(|n.matched|, i, |n.log|))];
        case ClientRequest(_) =>
          nodes := nodes[i := n.(log := n.log + [n.term])];
        case StepDown(_) =>
          nodes := nodes[i := n.(role := Follower)];
        case SelfAppend(_) =>
          pending := pending + [Message(i, i, n.term, AppendResponse(App, true, |n.log|))];
        case SendAppend(_, j, begin, end) =>
          if begin - 1 > |n.log| {
            return false;
          }
          pending := pending + [AppendMessage(n, i, j, App, begin, end)];
        case SendSnapshot(_, j, index) =>
          pending := pending + [AppendMessage(n, i, j, Snapshot, 1, index + 1)];
        case AdvanceCommit(_) =>
          var k := AgreedIndex(n.matched, |n.log|);
          if k > 0 && n.log[k - 1] == n.term {
            nodes := nodes[i := n.(commit := Max(n.commit, k))];
          }
        case Receive(_, _) =>
      }
    }

    method RunReceive(m: Message, how: How) returns (ok: bool)
      requires Callable(Model(), Receive(m, how))
      modifies this
      ensures ok <==> !old(Raises(Model(), Receive(m, how)))
      ensures ok ==> Model() == old(ApplyReceive(Model(), m, how))
      ensures !ok ==> Model() == old(Model())
    {
      var n := nodes[m.dst];
      ok := true;
      match how {
        case TakeTerm =>
          nodes := nodes[m.dst := n.(term := m.term, role := Follower, vote := None)];
          return;
        case TakeVoteResponse =>
          n := n.(responded := n.responded + {m.src});
          if m.body.granted {
            n := n.(granted := n.granted + {m.src});
          }
        case TakeVoteRequest =>
          if !MayVote(n, m) {
            return false;
          }
          n := n.(vote := Some(m.src));
          pending := pending + [Message(m.dst, m.src, n.term, VoteResponse(true))];
        case TakeAppendResponse =>
          if !(1 <= m.src <= |n.matched|) {
            return false;
          }
          n := n.(matched := n.matched[m.src - 1 := Max(n.matched[m.src - 1], m.body.matched)]);
        case AppendExtend =>
          n := n.(log := n.log + SliceFrom(m.body.entries, |n.log| - m.body.prev));
        case AppendDone =>
          var upto := m.body.prev + |m.body.entries|;
          n := n.(commit := Max(n.commit, Min(m.body.commit, upto)));
          pending := pending + [Message(m.dst, m.src, n.term, AppendResponse(m.body.mode, true, upto))];
      }
      nodes := nodes[m.dst := n];
      if how != AppendExtend {
        messages := Remove(messages, m);
      }
    }

    /** The largest index up to `top` that more than half of the slots have reached, or 0. */
    method AgreedIndex(matched: seq<nat>, top: nat) returns (best: nat)
      ensures best == MaxAgreed(matched, top)
      ensures best <= top
      ensures best > 0 ==> 2 * |Reached(matched, best)| > |matched|
      ensures forall k | best < k <= top :: 2 * |Reached(matched, k)| <= |matched|
    {
      best := 0;
      for k := 1 to top + 1
        invariant best == MaxAgreed(matched, k - 1)
      {
        var count := 0;
        for x := 0 to |matched|
          invariant count + CountAtLeast(matched[x..], k) == CountAtLeast(matched, k)
        {
          if matched[x] >= k {
            count := count + 1;
          }
        }
        if 2 * count > |matched| {
          best := k;
        }
      }
      forall k: nat
        ensures Agreed(matched, k) <==> 2 * |Reached(matched, k)| > |matched|
      {
        AgreedIsMajority(matched, k);
      }
    }
  }
}
