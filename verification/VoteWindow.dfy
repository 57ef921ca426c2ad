/**
 The acceptor's log window: a truncated vote map that must agree with the full vote history.
 */
module VoteWindow {

  datatype Vote = Vote(ballot: int, value: int)

  type Votes = map<int, Vote>

  /** The acceptor of both operations; `constants` and `checkpoint` are carried along untouched. */
  datatype Acceptor = Acceptor(constants: int, maxBal: int, votes: Votes, checkpoint: int, point: int)

  // ---------- the relations the operations must satisfy ----------

  ghost predicate AddVoteAndRemoveOldOnes(votes: Votes, votes': Votes, opn: int, vote: Vote, point: int) {
    && (forall k :: k in votes' <==> k >= point && (k in votes || k == opn))
    && (forall k | k in votes' :: votes'[k] == if k == opn then vote else votes[k])
  }

  ghost predicate RemoveVotesBefore(votes: Votes, votes': Votes, point: int) {
    && (forall k | k in votes' :: k in votes && votes'[k] == votes[k])
    && (forall k | k < point :: k !in votes')
    && (forall k | k >= point && k in votes :: k in votes')
  }

  ghost predicate Process2aVotes(s: Acceptor, s': Acceptor, opn: int, vote: Vote, point: int, update: bool) {
    && s'.maxBal == vote.ballot
    && s'.point == point
    && s'.constants == s.constants && s'.checkpoint == s.checkpoint
    && if update then AddVoteAndRemoveOldOnes(s.votes, s'.votes, opn, vote, point) else s'.votes == s.votes
  }

  ghost predicate TruncateLog(s: Acceptor, s': Acceptor, opn: int) {
    if opn <= s.point then s' == s
    else s' == s.(votes := s'.votes, point := opn) && RemoveVotesBefore(s.votes, s'.votes, opn)
  }

  // ---------- the operations ----------

  function Restrict(votes: Votes, point: int): Votes {
    map k | k in votes && k >= point :: votes[k]
  }

  function Process2a(s: Acceptor, opn: int, vote: Vote, point: int, update: bool): (r: Acceptor)
    ensures Process2aVotes(s, r, opn, vote, point, update)
  {
    var votes := if update then map k | k in s.votes.Keys + {opn} && k >= point :: if k == opn then vote else s.votes[k]
                 else s.votes;
    Acceptor(s.constants, vote.ballot, votes, s.checkpoint, point)
  }

  function Truncate(s: Acceptor, opn: int): (r: Acceptor)
    ensures TruncateLog(s, r, opn)
  {
    if opn <= s.point then s else s.(votes := Restrict(s.votes, opn), point := opn)
  }

  /** The relations leave no freedom: what they allow is what the operations return. */
  lemma RelationsAreExact(s: Acceptor, s': Acceptor, opn: int, vote: Vote, point: int, update: bool)
    ensures Process2aVotes(s, s', opn, vote, point, update) <==> s' == Process2a(s, opn, vote, point, update)
    ensures TruncateLog(s, s', opn) <==> s' == Truncate(s, opn)
  {
    if Process2aVotes(s, s', opn, vote, point, update) && update {
      var r := Process2a(s, opn, vote, point, update).votes;
      assert forall k :: k in s'.votes <==> k in r;
      assert forall k | k in r :: s'.votes[k] == r[k];
    }
    if TruncateLog(s, s', opn) && opn > s.point {
      var r := Truncate(s, opn).votes;
      assert forall k :: k in s'.votes <==> k in r;
      assert forall k | k in r :: s'.votes[k] == r[k];
    }
  }

  // ---------- runs ----------

  datatype Event =
    | Offer(opn: int, vote: Vote, point: int, update: bool)
    | Cut(opn: int)

  function Step(s: Acceptor, e: Event): Acceptor {
    match e
    case Offer(opn, vote, point, update) => Process2a(s, opn, vote, point, update)
    case Cut(opn) => Truncate(s, opn)
  }

  /** The full history: the newest vote offered for every operation number, skipped or not. */
  function Note(h: Votes, e: Event): Votes {
    if e.Offer? then h[e.opn := e.vote] else h
  }

  function Run(s: Acceptor, es: seq<Event>): Acceptor
    decreases es
  {
    if es == [] then s else Run(Step(s, es[0]), es[1..])
  }

  function Noted(h: Votes, es: seq<Event>): Votes
    decreases es
  {
    if es == [] then h else Noted(Note(h, es[0]), es[1..])
  }

  predicate Agrees(s: Acceptor, h: Votes) {
    s.votes == Restrict(h, s.point)
  }

  // ---------- which steps keep the window in agreement ----------

  /** The window agrees after the event whatever it held before. */
  ghost predicate KeepsAgreement(point: int, e: Event) {
    forall s: Acceptor, h: Votes | s.point == point && Agrees(s, h) :: Agrees(Step(s, e), Note(h, e))
  }

  /**
   A stored vote must not lower the point (lowering it by one is harmless when the vote is for
   the one number uncovered), and a skipped one must be below it and leave it where it was.
   */
  predicate Safe(point: int, e: Event) {
    match e
    case Offer(opn, _, p, true) => p >= point || (p == point - 1 && opn == p)
    case Offer(opn, _, p, false) => opn < point && p == point
    case Cut(_) => true
  }

  /** The guards the caller of the operations respects: votes below the point, and only those, are skipped. */
  predicate Disciplined(point: int, e: Event) {
    e.Offer? ==> (e.update <==> point <= e.opn) && e.point >= point && (!e.update ==> e.point == point)
  }

  lemma DisciplinedIsSafe(point: int, e: Event)
    requires Disciplined(point, e)
    ensures Safe(point, e)
  {
  }

  lemma SafeStepAgrees(s: Acceptor, h: Votes, e: Event)
    requires Safe(s.point, e) && Agrees(s, h)
    ensures Agrees(Step(s, e), Note(h, e))
  {
    var s', h' := Step(s, e), Note(h, e);
    var r := Restrict(h', s'.point);
    assert forall k :: k in s'.votes <==> k in r;
    assert forall k | k in r :: s'.votes[k] == r[k];
  }

  /** A stored vote that lowers the point brings no older vote back. */
  lemma LoweredPointForgets(point: int, e: Event, k: int)
    requires e.Offer? && e.update && e.point <= k < point && k != e.opn
    ensures !KeepsAgreement(point, e)
  {
    var s := Acceptor(0, 0, map[], 0, point);
    var h: Votes := map[k := e.vote];
    assert Agrees(s, h);
    assert k in Restrict(Note(h, e), e.point) && k !in Step(s, e).votes;
  }

  /** A skipped vote that should have been kept, or whose skipping moves the point, leaves the window wrong. */
  lemma SkippedVoteIsMissed(point: int, e: Event)
    requires e.Offer? && !e.update && !Safe(point, e)
    ensures !KeepsAgreement(point, e)
  {
    var other := Vote(e.vote.ballot + 1, e.vote.value);
    if e.opn >= e.point {
      var s := Acceptor(0, 0, map[], 0, point);
      assert Agrees(s, map[]);
      assert e.opn in Restrict(Note(map[], e), e.point) && e.opn !in Step(s, e).votes;
    } else if e.opn >= point {
      var h: Votes := map[e.opn := other];
      var s := Acceptor(0, 0, h, 0, point);
      assert Agrees(s, h);
      assert e.opn in Step(s, e).votes && e.opn !in Restrict(Note(h, e), e.point);
    } else if e.point < point {
      var k := point - 1;
      var h: Votes := map[k := other];
      var s := Acceptor(0, 0, map[], 0, point);
      assert Agrees(s, h);
      assert k !in Step(s, e).votes && k in Restrict(Note(h, e), e.point);
    } else {
      var h: Votes := map[point := other];
      var s := Acceptor(0, 0, h, 0, point);
      assert Agrees(s, h);
      assert point in Step(s, e).votes && point !in Restrict(Note(h, e), e.point);
    }
  }

  /** A step keeps every window in agreement exactly when it is safe, which the caller sees from the point alone. */
  lemma KeepsAgreementIffSafe(point: int, e: Event)
    ensures KeepsAgreement(point, e) <==> Safe(point, e)
  {
    if Safe(point, e) {
      forall s: Acceptor, h: Votes | s.point == point && Agrees(s, h)
        ensures Agrees(Step(s, e), Note(h, e))
      {
        SafeStepAgrees(s, h, e);
      }
    } else if e.update {
      LoweredPointForgets(point, e, if e.opn == e.point then e.point + 1 else e.point);
    } else {
      SkippedVoteIsMissed(point, e);
    }
  }

  // ---------- whole runs ----------

  predicate AllSafe(s: Acceptor, es: seq<Event>)
    decreases es
  {
    es == [] || (Safe(s.point, es[0]) && AllSafe(Step(s, es[0]), es[1..]))
  }

  predicate AllDisciplined(s: Acceptor, es: seq<Event>)
    decreases es
  {
    es == [] || (Disciplined(s.point, es[0]) && AllDisciplined(Step(s, es[0]), es[1..]))
  }

  /** After any safe run the window is the full history restricted to the numbers at or above the point. */
  lemma {:induction false} WindowIsHistory(s: Acceptor, h: Votes, es: seq<Event>)
    requires Agrees(s, h) && AllSafe(s, es)
    ensures Agrees(Run(s, es), Noted(h, es))
    decreases es
  {
    if es != [] {
      SafeStepAgrees(s, h, es[0]);
      WindowIsHistory(Step(s, es[0]), Note(h, es[0]), es[1..]);
    }
  }

  lemma {:induction false} DisciplinedRunIsSafe(s: Acceptor, es: seq<Event>)
    requires AllDisciplined(s, es)
    ensures AllSafe(s, es)
    decreases es
  {
    if es != [] {
      DisciplinedIsSafe(s.point, es[0]);
      DisciplinedRunIsSafe(Step(s, es[0]), es[1..]);
    }
  }

  function Highest(point: int, es: seq<Event>): int
    decreases es
  {
    if es == [] then point
    else
      var p := if es[0].Offer? then es[0].point else es[0].opn;
      Highest(if p > point then p else point, es[1..])
  }

  /** In a disciplined run the point is the highest one it was ever given. */
  lemma {:induction false} PointIsHighest(s: Acceptor, es: seq<Event>)
    requires AllDisciplined(s, es)
    ensures Run(s, es).point == Highest(s.point, es)
    decreases es
  {
    if es != [] {
      PointIsHighest(Step(s, es[0]), es[1..]);
    }
  }

  /** When the log is cut makes no difference: the window depends only on the votes offered and the highest point. */
  lemma CutsMayMove(s: Acceptor, h: Votes, es: seq<Event>, fs: seq<Event>)
    requires Agrees(s, h) && AllDisciplined(s, es) && AllDisciplined(s, fs)
    requires Noted(h, es) == Noted(h, fs) && Highest(s.point, es) == Highest(s.point, fs)
    ensures Run(s, es).votes == Run(s, fs).votes
  {
    DisciplinedRunIsSafe(s, es);
    DisciplinedRunIsSafe(s, fs);
    WindowIsHistory(s, h, es);
    WindowIsHistory(s, h, fs);
    PointIsHighest(s, es);
    PointIsHighest(s, fs);
  }
}
