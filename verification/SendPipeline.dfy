/**
 The send pipeline of the I/O scheduler: a dispatch thread, one sender thread per connection, a
 registry of senders by destination, and bounded resending.

 Threads interleave arbitrarily, so the pipeline is a state machine whose steps are the atomic
 actions of the threads: queue operations, registry operations under the lock, and the
 thread-local updates that go with them.  Sender ids are given out in registration order.
 */
module SendPipeline {
  import opened Common

  // ---------- data ----------

  type Hash = seq<nat>

  datatype Task = Task(id: nat, dest: Hash, message: seq<nat>, tries: nat)

  datatype Phase = Running | Draining | Done

  datatype Sender = Sender(dest: Hash, queue: seq<Task>, current: Option<Task>, phase: Phase)

  /** What the dispatch thread is doing with the task it has taken. */
  datatype Hand = Empty | Taken(t: Task) | NoSender(t: Task) | Found(t: Task, s: nat)

  datatype Pipeline = Pipeline(
    accepted: seq<Task>,            // every task SendPacket has accepted, as it was accepted
    dispatch: seq<Task>,
    hand: Hand,
    senders: seq<Sender>,
    registry: map<Hash, seq<nat>>,
    finished: seq<Task>,
    dropped: seq<Task>)

  datatype Step =
    | Submit(dest: Hash, message: seq<nat>)   // SendPacket
    | Register(dest: Hash)                    // a sender for an incoming or explicitly requested connection
    | TakeDispatch
    | LookUp
    | CreateSender
    | PostToSender
    | SenderTake(s: nat)
    | SenderFinish(s: nat)
    | Unregister(s: nat)
    | ResendCurrent(s: nat)
    | DrainTake(s: nat)
    | DrainEnd(s: nat)

  const INITIAL := Pipeline([], [], Empty, [], map[], [], [])

  // ---------- registry operations ----------

  function Registered(registry: map<Hash, seq<nat>>, dest: Hash): seq<nat> {
    if dest in registry then registry[dest] else []
  }

  function RemoveFirst(xs: seq<nat>, x: nat): seq<nat> {
    if xs == [] then [] else if xs[0] == x then xs[1..] else [xs[0]] + RemoveFirst(xs[1..], x)
  }

  function Find(registry: map<Hash, seq<nat>>, dest: Hash): Option<nat> {
    if Registered(registry, dest) == [] then None else Some(Registered(registry, dest)[0])
  }

  function WithSender(st: Pipeline, dest: Hash): Pipeline {
    st.(senders := st.senders + [Sender(dest, [], None, Running)],
        registry := st.registry[dest := [|st.senders|] + Registered(st.registry, dest)])
  }

  // ---------- steps ----------

  predicate IsIn(st: Pipeline, s: nat, phase: Phase) {
    s < |st.senders| && st.senders[s].phase == phase
  }

  predicate Enabled(st: Pipeline, step: Step) {
    match step
    case Submit(_, _) => true
    case Register(_) => true
    case TakeDispatch => st.hand.Empty? && st.dispatch != []
    case LookUp => st.hand.Taken?
    case CreateSender => st.hand.NoSender?
    case PostToSender => st.hand.Found? && st.hand.s < |st.senders|
    case SenderTake(s) => IsIn(st, s, Running) && st.senders[s].current.None? && st.senders[s].queue != []
    case SenderFinish(s) => IsIn(st, s, Running) && st.senders[s].current.Some?
    case Unregister(s) => IsIn(st, s, Running)
    case ResendCurrent(s) => IsIn(st, s, Draining) && st.senders[s].current.Some?
    case DrainTake(s) => IsIn(st, s, Draining) && st.senders[s].current.None? && st.senders[s].queue != []
    case DrainEnd(s) => IsIn(st, s, Draining) && st.senders[s].current.None? && st.senders[s].queue == []
  }

  function SetSender(st: Pipeline, s: nat, x: Sender): Pipeline
    requires s < |st.senders|
  {
    st.(senders := st.senders[s := x])
  }

  function TakeFromQueue(x: Sender): Sender
    requires x.queue != []
  {
    x.(queue := x.queue[1..], current := Some(x.queue[0]))
  }

  /** The resend decision: one more try, re-queued only while the count stays below the limit. */
  function Resent(maxTries: int, st: Pipeline, t: Task): Pipeline {
    var t' := t.(tries := t.tries + 1);
    if t'.tries < maxTries then st.(dispatch := st.dispatch + [t']) else st.(dropped := st.dropped + [t'])
  }

  function Apply(maxTries: int, st: Pipeline, step: Step): Pipeline
    requires Enabled(st, step)
  {
    match step
    case Submit(dest, message) =>
      var t := Task(|st.accepted|, dest, message, 0);
      st.(accepted := st.accepted + [t], dispatch := st.dispatch + [t])
    case Register(dest) => WithSender(st, dest)
    case TakeDispatch => st.(hand := Taken(st.dispatch[0]), dispatch := st.dispatch[1..])
    case LookUp =>
      (match Find(st.registry, st.hand.t.dest)
       case Some(s) => st.(hand := Found(st.hand.t, s))
       case None => st.(hand := NoSender(st.hand.t)))
    case CreateSender => WithSender(st, st.hand.t.dest).(hand := Found(st.hand.t, |st.senders|))
    case PostToSender =>
      var x := st.senders[st.hand.s];
      SetSender(st, st.hand.s, x.(queue := x.queue + [st.hand.t])).(hand := Empty)
    case SenderTake(s) => SetSender(st, s, TakeFromQueue(st.senders[s]))
    case SenderFinish(s) =>
      SetSender(st, s, st.senders[s].(current := None)).(finished := st.finished + [st.senders[s].current.value])
    case Unregister(s) =>
      var x := st.senders[s];
      var list := RemoveFirst(Registered(st.registry, x.dest), s);
      SetSender(st, s, x.(phase := Draining)).(registry := st.registry[x.dest := list])
    case ResendCurrent(s) =>
      Resent(maxTries, SetSender(st, s, st.senders[s].(current := None)), st.senders[s].current.value)
    case DrainTake(s) => SetSender(st, s, TakeFromQueue(st.senders[s]))
    case DrainEnd(s) => SetSender(st, s, st.senders[s].(phase := Done))
  }

  predicate IsRun(maxTries: int, b: seq<Pipeline>, steps: seq<Step>) {
    && |b| == |steps| + 1
    && b[0] == INITIAL
    && forall k | 0 <= k < |steps| :: Enabled(b[k], steps[k]) && b[k + 1] == Apply(maxTries, b[k], steps[k])
  }

  // ---------- weighing a pipeline: one sum over every place a task can be ----------

  datatype Place = InDispatch | InHand | InHandNoSender | InHandFound | InQueue | InCurrent | Finished | Dropped

  type Weight = (Place, Task) -> int

  function Sum(f: Weight, p: Place, ts: seq<Task>): int {
    if ts == [] then 0 else f(p, ts[0]) + Sum(f, p, ts[1..])
  }

  function HandTotal(f: Weight, h: Hand): int {
    match h
    case Empty => 0
    case Taken(t) => f(InHand, t)
    case NoSender(t) => f(InHandNoSender, t)
    case Found(t, _) => f(InHandFound, t)
  }

  function SenderTotal(f: Weight, x: Sender): int {
    Sum(f, InQueue, x.queue) + if x.current.Some? then f(InCurrent, x.current.value) else 0
  }

  function SendersTotal(f: Weight, xs: seq<Sender>): int {
    if xs == [] then 0 else SenderTotal(f, xs[0]) + SendersTotal(f, xs[1..])
  }

  function Total(f: Weight, st: Pipeline): int {
    Sum(f, InDispatch, st.dispatch) + HandTotal(f, st.hand) + SendersTotal(f, st.senders) +
    Sum(f, Finished, st.finished) + Sum(f, Dropped, st.dropped)
  }

  lemma {:induction false} SumAppend(f: Weight, p: Place, ts: seq<Task>, t: Task)
    ensures Sum(f, p, ts + [t]) == Sum(f, p, ts) + f(p, t)
  {
    if ts == [] {
      assert ts + [t] == [t];
    } else {
      assert (ts + [t])[1..] == ts[1..] + [t];
      SumAppend(f, p, ts[1..], t);
    }
  }

  lemma {:induction false} SendersAppend(f: Weight, xs: seq<Sender>, x: Sender)
    ensures SendersTotal(f, xs + [x]) == SendersTotal(f, xs) + SenderTotal(f, x)
  {
    if xs == [] {
      assert xs + [x] == [x];
    } else {
      assert (xs + [x])[1..] == xs[1..] + [x];
      SendersAppend(f, xs[1..], x);
    }
  }

  lemma {:induction false} SendersUpdate(f: Weight, xs: seq<Sender>, s: nat, x: Sender)
    requires s < |xs|
    ensures SendersTotal(f, xs[s := x]) == SendersTotal(f, xs) - SenderTotal(f, xs[s]) + SenderTotal(f, x)
  {
    if s > 0 {
      assert xs[s := x][1..] == xs[1..][s - 1 := x];
      SendersUpdate(f, xs[1..], s - 1, x);
    } else {
      assert xs[s := x][1..] == xs[1..];
    }
  }

  /** The one task a step touches, with its place before; None when no task moves. */
  function Source(st: Pipeline, step: Step): Option<(Place, Task)>
    requires Enabled(st, step)
  {
    match step
    case TakeDispatch => Some((InDispatch, st.dispatch[0]))
    case LookUp => Some((InHand, st.hand.t))
    case CreateSender => Some((InHandNoSender, st.hand.t))
    case PostToSender => Some((InHandFound, st.hand.t))
    case SenderTake(s) => Some((InQueue, st.senders[s].queue[0]))
    case DrainTake(s) => Some((InQueue, st.senders[s].queue[0]))
    case SenderFinish(s) => Some((InCurrent, st.senders[s].current.value))
    case ResendCurrent(s) => Some((InCurrent, st.senders[s].current.value))
    case _ => None
  }

  /** Where that task, or a newly accepted one, is afterwards. */
  function Target(maxTries: int, st: Pipeline, step: Step): Option<(Place, Task)>
    requires Enabled(st, step)
  {
    match step
    case Submit(dest, message) => Some((InDispatch, Task(|st.accepted|, dest, message, 0)))
    case TakeDispatch => Some((InHand, st.dispatch[0]))
    case LookUp => Some((if Find(st.registry, st.hand.t.dest).Some? then InHandFound else InHandNoSender, st.hand.t))
    case CreateSender => Some((InHandFound, st.hand.t))
    case PostToSender => Some((InQueue, st.hand.t))
    case SenderTake(s) => Some((InCurrent, st.senders[s].queue[0]))
    case DrainTake(s) => Some((InCurrent, st.senders[s].queue[0]))
    case SenderFinish(s) => Some((Finished, st.senders[s].current.value))
    case ResendCurrent(s) =>
      var t := st.senders[s].current.value;
      var t' := t.(tries := t.tries + 1);
      Some((if t'.tries < maxTries then InDispatch else Dropped, t'))
    case _ => None
  }

  function WeightOf(f: Weight, at: Option<(Place, Task)>): int {
    if at.Some? then f(at.value.0, at.value.1) else 0
  }

  /** Every step moves at most one task: whatever is weighed, only that task's weight changes. */
  lemma StepMovesOneTask(maxTries: int, st: Pipeline, step: Step, f: Weight)
    requires Enabled(st, step)
    ensures Total(f, Apply(maxTries, st, step)) ==
            Total(f, st) - WeightOf(f, Source(st, step)) + WeightOf(f, Target(maxTries, st, step))
  {
    match step
    case Submit(dest, message) => SumAppend(f, InDispatch, st.dispatch, Task(|st.accepted|, dest, message, 0));
    case Register(dest) => SendersAppend(f, st.senders, Sender(dest, [], None, Running));
    case CreateSender => SendersAppend(f, st.senders, Sender(st.hand.t.dest, [], None, Running));
    case PostToSender =>
      var x := st.senders[st.hand.s];
      SumAppend(f, InQueue, x.queue, st.hand.t);
      SendersUpdate(f, st.senders, st.hand.s, x.(queue := x.queue + [st.hand.t]));
    case SenderTake(s) => SendersUpdate(f, st.senders, s, TakeFromQueue(st.senders[s]));
    case DrainTake(s) => SendersUpdate(f, st.senders, s, TakeFromQueue(st.senders[s]));
    case SenderFinish(s) =>
      SendersUpdate(f, st.senders, s, st.senders[s].(current := None));
      SumAppend(f, Finished, st.finished, st.senders[s].current.value);
    case Unregister(s) => SendersUpdate(f, st.senders, s, st.senders[s].(phase := Draining));
    case ResendCurrent(s) =>
      var t := st.senders[s].current.value;
      var t' := t.(tries := t.tries + 1);
      SendersUpdate(f, st.senders, s, st.senders[s].(current := None));
      SumAppend(f, InDispatch, st.dispatch, t');
      SumAppend(f, Dropped, st.dropped, t');
    case DrainEnd(s) => SendersUpdate(f, st.senders, s, st.senders[s].(phase := Done));
    case _ =>
  }

  lemma {:induction false} SumMonotone(f: Weight, g: Weight, p: Place, ts: seq<Task>)
    requires forall p, t :: f(p, t) <= g(p, t)
    ensures Sum(f, p, ts) <= Sum(g, p, ts)
  {
    if ts != [] {
      SumMonotone(f, g, p, ts[1..]);
    }
  }

  lemma {:induction false} SendersMonotone(f: Weight, g: Weight, xs: seq<Sender>)
    requires forall p, t :: f(p, t) <= g(p, t)
    ensures SendersTotal(f, xs) <= SendersTotal(g, xs)
  {
    if xs != [] {
      SumMonotone(f, g, InQueue, xs[0].queue);
      SendersMonotone(f, g, xs[1..]);
    }
  }

  lemma TotalMonotone(f: Weight, g: Weight, st: Pipeline)
    requires forall p, t :: f(p, t) <= g(p, t)
    ensures Total(f, st) <= Total(g, st)
  {
    SumMonotone(f, g, InDispatch, st.dispatch);
    SumMonotone(f, g, Finished, st.finished);
    SumMonotone(f, g, Dropped, st.dropped);
    SendersMonotone(f, g, st.senders);
  }

  // ---------- conservation ----------

  /** Counts the copies of an accepted task, message and destination included. */
  function Occurs(what: Task): Weight {
    (p: Place, t: Task) => if t.(tries := 0) == what then 1 else 0
  }

  function HasId(id: nat): Weight {
    (p: Place, t: Task) => if t.id == id then 1 else 0
  }

  predicate WasAccepted(st: Pipeline, what: Task) {
    what.id < |st.accepted| && st.accepted[what.id] == what
  }

  predicate AcceptedOk(st: Pipeline) {
    forall x | 0 <= x < |st.accepted| :: st.accepted[x].id == x && st.accepted[x].tries == 0
  }

  lemma StepConserves(maxTries: int, st: Pipeline, step: Step, what: Task)
    requires Enabled(st, step)
    ensures AcceptedOk(st) ==> AcceptedOk(Apply(maxTries, st, step))
    ensures Apply(maxTries, st, step).accepted ==
            if step.Submit? then st.accepted + [Task(|st.accepted|, step.dest, step.message, 0)] else st.accepted
    ensures var f := Occurs(what);
            WeightOf(f, Target(maxTries, st, step)) - WeightOf(f, Source(st, step)) ==
            if step.Submit? && what == Task(|st.accepted|, step.dest, step.message, 0) then 1 else 0
    ensures var f := HasId(what.id);
            WeightOf(f, Target(maxTries, st, step)) - WeightOf(f, Source(st, step)) ==
            if step.Submit? && what.id == |st.accepted| then 1 else 0
  {
  }

  /** Every accepted task is in exactly one place of the pipeline, unaltered, and nothing else is anywhere. */
  lemma {:induction false} RunConserves(maxTries: int, b: seq<Pipeline>, steps: seq<Step>, k: nat, what: Task)
    requires IsRun(maxTries, b, steps) && k < |b|
    ensures AcceptedOk(b[k])
    ensures Total(Occurs(what), b[k]) == if WasAccepted(b[k], what) then 1 else 0
    ensures Total(HasId(what.id), b[k]) == if what.id < |b[k].accepted| then 1 else 0
  {
    if k > 0 {
      var st, step := b[k - 1], steps[k - 1];
      RunConserves(maxTries, b, steps, k - 1, what);
      assert b[k - 1 + 1] == Apply(maxTries, st, step);
      StepConserves(maxTries, st, step, what);
      StepMovesOneTask(maxTries, st, step, HasId(what.id));
      StepMovesOneTask(maxTries, st, step, Occurs(what));
    }
  }

  // ---------- bounded retry ----------

  /** Does this step put task x on the dispatch queue? */
  predicate Enters(maxTries: int, st: Pipeline, step: Step, x: nat)
    requires Enabled(st, step)
  {
    && (step.Submit? || step.ResendCurrent?)
    && var target := Target(maxTries, st, step).value;
    target.0 == InDispatch && target.1.id == x
  }

  /** How often task x has entered the dispatch queue in the first k steps. */
  function Entries(maxTries: int, b: seq<Pipeline>, steps: seq<Step>, k: nat, x: nat): nat
    requires IsRun(maxTries, b, steps) && k < |b|
  {
    if k == 0 then 0
    else Entries(maxTries, b, steps, k - 1, x) + if Enters(maxTries, b[k - 1], steps[k - 1], x) then 1 else 0
  }

  /** The entries a task's own counter accounts for: its drop was counted as a try but not as an entry. */
  function Stamp(p: Place, t: Task): nat {
    if p == Dropped then t.tries else t.tries + 1
  }

  function EntryWeight(x: nat): Weight {
    (p: Place, t: Task) => if t.id == x then Stamp(p, t) else 0
  }

  function CappedWeight(x: nat, cap: nat): Weight {
    (p: Place, t: Task) => if t.id == x then Max(Stamp(p, t), cap) else 0
  }

  /** A step adds one to a task's stamp exactly when it puts the task on the dispatch queue. */
  lemma StepStamps(maxTries: int, st: Pipeline, step: Step, x: nat)
    requires Enabled(st, step)
    ensures var f := EntryWeight(x);
            WeightOf(f, Target(maxTries, st, step)) - WeightOf(f, Source(st, step)) ==
            if Enters(maxTries, st, step, x) then 1 else 0
    ensures var f := CappedWeight(x, Max(1, maxTries));
            WeightOf(f, Target(maxTries, st, step)) - WeightOf(f, Source(st, step)) <=
            if step.Submit? && x == |st.accepted| then Max(1, maxTries) else 0
  {
  }

  lemma StepStampsTotal(maxTries: int, st: Pipeline, step: Step, x: nat)
    requires Enabled(st, step)
    ensures Total(EntryWeight(x), Apply(maxTries, st, step)) ==
            Total(EntryWeight(x), st) + if Enters(maxTries, st, step, x) then 1 else 0
  {
    StepStamps(maxTries, st, step, x);
    StepMovesOneTask(maxTries, st, step, EntryWeight(x));
  }

  lemma StepCapsTotal(maxTries: int, st: Pipeline, step: Step, x: nat)
    requires Enabled(st, step)
    ensures var f, cap := CappedWeight(x, Max(1, maxTries)), Max(1, maxTries);
            Total(f, Apply(maxTries, st, step)) <=
            Total(f, st) + if step.Submit? && x == |st.accepted| then cap else 0
  {
    StepStamps(maxTries, st, step, x);
    StepMovesOneTask(maxTries, st, step, CappedWeight(x, Max(1, maxTries)));
  }

  lemma {:induction false} EntriesAreStamped(maxTries: int, b: seq<Pipeline>, steps: seq<Step>, k: nat, x: nat)
    requires IsRun(maxTries, b, steps) && k < |b|
    ensures Total(EntryWeight(x), b[k]) == Entries(maxTries, b, steps, k, x)
    ensures Total(CappedWeight(x, Max(1, maxTries)), b[k]) <= if x < |b[k].accepted| then Max(1, maxTries) else 0
  {
    if k > 0 {
      var st, step := b[k - 1], steps[k - 1];
      EntriesAreStamped(maxTries, b, steps, k - 1, x);
      assert b[k - 1 + 1] == Apply(maxTries, st, step);
      StepStampsTotal(maxTries, st, step, x);
      StepCapsTotal(maxTries, st, step, x);
    }
  }

  /** No task enters the dispatch queue more than max(1, maxTries) times. */
  lemma BoundedRetry(maxTries: int, b: seq<Pipeline>, steps: seq<Step>, k: nat, x: nat)
    requires IsRun(maxTries, b, steps) && k < |b|
    ensures Entries(maxTries, b, steps, k, x) <= Max(1, maxTries)
  {
    EntriesAreStamped(maxTries, b, steps, k, x);
    TotalMonotone(EntryWeight(x), CappedWeight(x, Max(1, maxTries)), b[k]);
  }

  predicate AllBelow(ts: seq<Task>, cap: int) {
    forall t | t in ts :: t.tries < cap
  }

  /** Tasks still in the pipeline have tries left; dropped ones have used up exactly all of them. */
  predicate TriesOk(st: Pipeline, cap: int) {
    && AllBelow(st.dispatch, cap)
    && (!st.hand.Empty? ==> st.hand.t.tries < cap)
    && (forall x | x in st.senders :: AllBelow(x.queue, cap) && (x.current.Some? ==> x.current.value.tries < cap))
    && (forall t | t in st.dropped :: t.tries == cap)
  }

  lemma SenderTries(x: Sender, cap: int)
    requires AllBelow(x.queue, cap) && x.queue != []
    ensures AllBelow(TakeFromQueue(x).queue, cap) && TakeFromQueue(x).current.value.tries < cap
  {
    assert x.queue[0] in x.queue;
  }

  lemma StepKeepsTries(maxTries: int, st: Pipeline, step: Step)
    requires TriesOk(st, Max(1, maxTries)) && Enabled(st, step)
    ensures TriesOk(Apply(maxTries, st, step), Max(1, maxTries))
  {
    match step
    case SenderTake(s) => SenderTries(st.senders[s], Max(1, maxTries));
    case DrainTake(s) => SenderTries(st.senders[s], Max(1, maxTries));
    case PostToSender => assert st.senders[st.hand.s] in st.senders;
    case ResendCurrent(s) => assert st.senders[s] in st.senders;
    case SenderFinish(s) => assert st.senders[s] in st.senders;
    case Unregister(s) => assert st.senders[s] in st.senders;
    case DrainEnd(s) => assert st.senders[s] in st.senders;
    case _ =>
  }

  lemma {:induction false} RunTries(maxTries: int, b: seq<Pipeline>, steps: seq<Step>, k: nat)
    requires IsRun(maxTries, b, steps) && k < |b|
    ensures TriesOk(b[k], Max(1, maxTries))
  {
    if k > 0 {
      RunTries(maxTries, b, steps, k - 1);
      StepKeepsTries(maxTries, b[k - 1], steps[k - 1]);
      assert b[k - 1 + 1] == Apply(maxTries, b[k - 1], steps[k - 1]);
    }
  }

  lemma {:induction false} SumAtLeast(f: Weight, p: Place, ts: seq<Task>, t: Task)
    requires t in ts && forall q, u :: f(q, u) >= 0
    ensures Sum(f, p, ts) >= f(p, t)
  {
    if ts[0] == t {
      SumNonNegative(f, p, ts[1..]);
    } else {
      SumAtLeast(f, p, ts[1..], t);
    }
  }

  lemma TotalAtLeast(f: Weight, st: Pipeline, t: Task)
    requires t in st.dropped && forall q, u :: f(q, u) >= 0
    ensures Total(f, st) >= f(Dropped, t)
  {
    SumAtLeast(f, Dropped, st.dropped, t);
    SumNonNegative(f, InDispatch, st.dispatch);
    SumNonNegative(f, Finished, st.finished);
    SendersNonNegative(f, st.senders);
  }

  /** Nothing is dropped early: a dropped task has entered the dispatch queue exactly max(1, maxTries) times. */
  lemma DroppedAfterAllTries(maxTries: int, b: seq<Pipeline>, steps: seq<Step>, k: nat, t: Task)
    requires IsRun(maxTries, b, steps) && k < |b| && t in b[k].dropped
    ensures t.tries == Max(1, maxTries) && Entries(maxTries, b, steps, k, t.id) == Max(1, maxTries)
  {
    RunTries(maxTries, b, steps, k);
    TotalAtLeast(EntryWeight(t.id), b[k], t);
    EntriesAreStamped(maxTries, b, steps, k, t.id);
    BoundedRetry(maxTries, b, steps, k, t.id);
  }

  // ---------- termination ----------

  function StageOf(p: Place): nat {
    match p
    case InDispatch => 6
    case InHand => 5
    case InHandNoSender => 4
    case InHandFound => 3
    case InQueue => 2
    case InCurrent => 1
    case Finished => 0
    case Dropped => 0
  }

  /** Tries left first, pipeline stage second. */
  function WorkLeft(maxTries: int, p: Place, t: Task): nat {
    if StageOf(p) == 0 then 0 else 7 * Max(0, maxTries - t.tries) + StageOf(p)
  }

  function Work(maxTries: int): Weight {
    (p: Place, t: Task) => WorkLeft(maxTries, p, t)
  }

  function PhaseRank(x: Sender): nat {
    match x.phase
    case Running => 2
    case Draining => 1
    case Done => 0
  }

  function PhaseTotal(xs: seq<Sender>): nat {
    if xs == [] then 0 else PhaseRank(xs[0]) + PhaseTotal(xs[1..])
  }

  lemma {:induction false} PhaseAppend(xs: seq<Sender>, x: Sender)
    ensures PhaseTotal(xs + [x]) == PhaseTotal(xs) + PhaseRank(x)
  {
    if xs == [] {
      assert xs + [x] == [x];
    } else {
      assert (xs + [x])[1..] == xs[1..] + [x];
      PhaseAppend(xs[1..], x);
    }
  }

  lemma {:induction false} PhaseUpdate(xs: seq<Sender>, s: nat, x: Sender)
    requires s < |xs|
    ensures PhaseTotal(xs[s := x]) == PhaseTotal(xs) - PhaseRank(xs[s]) + PhaseRank(x)
  {
    if s > 0 {
      assert xs[s := x][1..] == xs[1..][s - 1 := x];
      PhaseUpdate(xs[1..], s - 1, x);
    } else {
      assert xs[s := x][1..] == xs[1..];
    }
  }

  /** Work left dominates: one unit of it pays for a newly created sender's two phase changes. */
  function Measure(maxTries: int, st: Pipeline): int {
    3 * Total(Work(maxTries), st) + PhaseTotal(st.senders)
  }

  predicate External(step: Step) {
    step.Submit? || step.Register?
  }

  lemma WorkFalls(maxTries: int, st: Pipeline, step: Step)
    requires Enabled(st, step) && Source(st, step).Some?
    ensures WeightOf(Work(maxTries), Target(maxTries, st, step)) < WeightOf(Work(maxTries), Source(st, step))
  {
  }

  /** What a step does to the sender phases; creating a sender is the only internal step that adds to them. */
  lemma PhaseChange(maxTries: int, st: Pipeline, step: Step)
    requires Enabled(st, step) && !External(step)
    ensures var change := PhaseTotal(Apply(maxTries, st, step).senders) - PhaseTotal(st.senders);
            if Source(st, step).Some? then change <= 2 else change < 0
  {
    var st' := Apply(maxTries, st, step);
    if step.CreateSender? {
      PhaseAppend(st.senders, Sender(st.hand.t.dest, [], None, Running));
    } else if step.PostToSender? {
      PhaseUpdate(st.senders, st.hand.s, st'.senders[st.hand.s]);
    } else if !step.TakeDispatch? && !step.LookUp? {
      PhaseUpdate(st.senders, step.s, st'.senders[step.s]);
    }
  }

  lemma MeasureFalls(maxTries: int, st: Pipeline, step: Step)
    requires Enabled(st, step) && !External(step)
    ensures Measure(maxTries, Apply(maxTries, st, step)) < Measure(maxTries, st)
  {
    StepMovesOneTask(maxTries, st, step, Work(maxTries));
    PhaseChange(maxTries, st, step);
    if Source(st, step).Some? {
      WorkFalls(maxTries, st, step);
    }
  }

  lemma {:induction false} SumNonNegative(f: Weight, p: Place, ts: seq<Task>)
    requires forall p, t :: f(p, t) >= 0
    ensures Sum(f, p, ts) >= 0
  {
    if ts != [] {
      SumNonNegative(f, p, ts[1..]);
    }
  }

  lemma {:induction false} SendersNonNegative(f: Weight, xs: seq<Sender>)
    requires forall p, t :: f(p, t) >= 0
    ensures SendersTotal(f, xs) >= 0
  {
    if xs != [] {
      SumNonNegative(f, InQueue, xs[0].queue);
      SendersNonNegative(f, xs[1..]);
    }
  }

  lemma MeasureNonNegative(maxTries: int, st: Pipeline)
    ensures Measure(maxTries, st) >= 0
  {
    var f := Work(maxTries);
    SumNonNegative(f, InDispatch, st.dispatch);
    SumNonNegative(f, Finished, st.finished);
    SumNonNegative(f, Dropped, st.dropped);
    SendersNonNegative(f, st.senders);
  }

  /** Once nothing new comes in, the pipeline takes at most Measure more steps. */
  lemma {:induction false} QuietRunIsBounded(maxTries: int, b: seq<Pipeline>, steps: seq<Step>, from: nat, k: nat)
    requires IsRun(maxTries, b, steps) && from <= k < |b|
    requires forall i | from <= i < k :: !External(steps[i])
    ensures k - from <= Measure(maxTries, b[from]) - Measure(maxTries, b[k])
    ensures k - from <= Measure(maxTries, b[from])
  {
    MeasureNonNegative(maxTries, b[k]);
    if from < k {
      QuietRunIsBounded(maxTries, b, steps, from, k - 1);
      MeasureFalls(maxTries, b[k - 1], steps[k - 1]);
      assert b[k - 1 + 1] == Apply(maxTries, b[k - 1], steps[k - 1]);
    }
  }
}
