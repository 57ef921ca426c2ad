/**
 The order of sending: every queue of the pipeline is first in, first out over whole runs, and a
 destination's tasks are sent in the order they were accepted exactly while it has one sender.
 */
module SendOrder {
  import opened Common
  import opened SendPipeline
  import opened SendRouting

  // ---------- first in, first out ----------

  /** What a step puts on the dispatch queue: a new task, or a resent one with a try more. */
  function EnteredBy(maxTries: int, st: Pipeline, step: Step): seq<Task>
    requires Enabled(st, step)
  {
    match step
    case Submit(dest, message) => [Task(|st.accepted|, dest, message, 0)]
    case ResendCurrent(s) =>
      var t := st.senders[s].current.value;
      if t.tries + 1 < maxTries then [t.(tries := t.tries + 1)] else []
    case _ => []
  }

  /** What the dispatch thread has in hand after taking it in this step. */
  function DispatchedBy(maxTries: int, st: Pipeline, step: Step): seq<Task>
    requires Enabled(st, step)
  {
    if step.TakeDispatch? then [Apply(maxTries, st, step).hand.t] else []
  }

  function PostedBy(st: Pipeline, step: Step, s: nat): seq<Task>
    requires Enabled(st, step)
  {
    if step.PostToSender? && st.hand.s == s then [st.hand.t] else []
  }

  /** What sender s has in its current slot after taking it in this step. */
  function ReceivedBy(maxTries: int, st: Pipeline, step: Step, s: nat): seq<Task>
    requires Enabled(st, step)
  {
    if step == SenderTake(s) || step == DrainTake(s) then [Apply(maxTries, st, step).senders[s].current.value] else []
  }

  function QueueOf(st: Pipeline, s: nat): seq<Task> {
    if s < |st.senders| then st.senders[s].queue else []
  }

  lemma StepDispatchFifo(maxTries: int, st: Pipeline, step: Step)
    requires Enabled(st, step)
    ensures st.dispatch + EnteredBy(maxTries, st, step) ==
            DispatchedBy(maxTries, st, step) + Apply(maxTries, st, step).dispatch
  {
  }

  lemma StepSenderFifo(maxTries: int, st: Pipeline, step: Step, s: nat)
    requires Enabled(st, step)
    ensures QueueOf(st, s) + PostedBy(st, step, s) ==
            ReceivedBy(maxTries, st, step, s) + QueueOf(Apply(maxTries, st, step), s)
  {
  }

  /** The tasks that entered the dispatch queue in the first k steps, in order. */
  function Entered(maxTries: int, b: seq<Pipeline>, steps: seq<Step>, k: nat): seq<Task>
    requires IsRun(maxTries, b, steps) && k < |b|
  {
    if k == 0 then []
    else Entered(maxTries, b, steps, k - 1) + EnteredBy(maxTries, b[k - 1], steps[k - 1])
  }

  /** The tasks the dispatch thread took in the first k steps, in order. */
  function Dispatched(maxTries: int, b: seq<Pipeline>, steps: seq<Step>, k: nat): seq<Task>
    requires IsRun(maxTries, b, steps) && k < |b|
  {
    if k == 0 then []
    else Dispatched(maxTries, b, steps, k - 1) + DispatchedBy(maxTries, b[k - 1], steps[k - 1])
  }

  /** The tasks posted to sender s in the first k steps, in order. */
  function Posted(maxTries: int, b: seq<Pipeline>, steps: seq<Step>, k: nat, s: nat): seq<Task>
    requires IsRun(maxTries, b, steps) && k < |b|
  {
    if k == 0 then []
    else Posted(maxTries, b, steps, k - 1, s) + PostedBy(b[k - 1], steps[k - 1], s)
  }

  /** The tasks sender s took from its queue in the first k steps, in order. */
  function Received(maxTries: int, b: seq<Pipeline>, steps: seq<Step>, k: nat, s: nat): seq<Task>
    requires IsRun(maxTries, b, steps) && k < |b|
  {
    if k == 0 then []
    else Received(maxTries, b, steps, k - 1, s) + ReceivedBy(maxTries, b[k - 1], steps[k - 1], s)
  }

  lemma Queued<T>(entered: seq<T>, more: seq<T>, taken: seq<T>, next: seq<T>, was: seq<T>, now: seq<T>)
    requires entered == taken + was && was + more == next + now
    ensures entered + more == (taken + next) + now
  {
    assert (taken + was) + more == taken + (was + more);
    assert taken + (next + now) == (taken + next) + now;
  }

  /** The dispatch queue is first in, first out: what entered it is what was taken from it and then what is in it. */
  lemma {:induction false} DispatchIsFifo(maxTries: int, b: seq<Pipeline>, steps: seq<Step>, k: nat)
    requires IsRun(maxTries, b, steps) && k < |b|
    ensures Entered(maxTries, b, steps, k) == Dispatched(maxTries, b, steps, k) + b[k].dispatch
  {
    if k > 0 {
      var st, step := b[k - 1], steps[k - 1];
      DispatchIsFifo(maxTries, b, steps, k - 1);
      StepDispatchFifo(maxTries, st, step);
      assert b[k - 1 + 1] == Apply(maxTries, st, step);
      Queued(Entered(maxTries, b, steps, k - 1), EnteredBy(maxTries, st, step),
             Dispatched(maxTries, b, steps, k - 1), DispatchedBy(maxTries, st, step), st.dispatch, b[k].dispatch);
    }
  }

  /** Every sender's queue is first in, first out. */
  lemma {:induction false} SenderIsFifo(maxTries: int, b: seq<Pipeline>, steps: seq<Step>, k: nat, s: nat)
    requires IsRun(maxTries, b, steps) && k < |b|
    ensures Posted(maxTries, b, steps, k, s) == Received(maxTries, b, steps, k, s) + QueueOf(b[k], s)
  {
    if k > 0 {
      var st, step := b[k - 1], steps[k - 1];
      SenderIsFifo(maxTries, b, steps, k - 1, s);
      StepSenderFifo(maxTries, st, step, s);
      assert b[k - 1 + 1] == Apply(maxTries, st, step);
      Queued(Posted(maxTries, b, steps, k - 1, s), PostedBy(st, step, s),
             Received(maxTries, b, steps, k - 1, s), ReceivedBy(maxTries, st, step, s),
             QueueOf(st, s), QueueOf(b[k], s));
    }
  }

  // ---------- the line of one destination ----------

  /** The tasks for a destination, in order. */
  function For(ts: seq<Task>, dest: Hash): seq<Task> {
    if ts == [] then [] else (if ts[0].dest == dest then [ts[0]] else []) + For(ts[1..], dest)
  }

  function HandFor(h: Hand, dest: Hash): seq<Task> {
    if h.Empty? || h.t.dest != dest then [] else [h.t]
  }

  function Content(x: Sender): seq<Task> {
    (if x.current.Some? then [x.current.value] else []) + x.queue
  }

  /** What the destination's senders hold. */
  function Middle(xs: seq<Sender>, dest: Hash): seq<Task> {
    if xs == [] then [] else Share(xs[0], dest) + Middle(xs[1..], dest)
  }

  function Share(x: Sender, dest: Hash): seq<Task> {
    if x.dest == dest then Content(x) else []
  }

  predicate OneSender(xs: seq<Sender>, dest: Hash) {
    forall i, j | 0 <= i < j < |xs| :: !(xs[i].dest == dest && xs[j].dest == dest)
  }

  predicate AllRunning(xs: seq<Sender>, dest: Hash) {
    forall s | 0 <= s < |xs| && xs[s].dest == dest :: xs[s].phase == Running
  }

  /** The destination's tasks have been sent in the order they were accepted. */
  predicate InOrder(st: Pipeline, dest: Hash) {
    For(st.finished, dest) <= For(st.accepted, dest)
  }

  /** Everything accepted for the destination, in the order it has gone through the pipeline. */
  function Line(st: Pipeline, dest: Hash): seq<Task> {
    For(st.finished, dest) + (Middle(st.senders, dest) + (HandFor(st.hand, dest) + For(st.dispatch, dest)))
  }

  predicate LineInv(st: Pipeline, dest: Hash) {
    InOrder(st, dest) && (AllRunning(st.senders, dest) ==> For(st.accepted, dest) == Line(st, dest))
  }

  lemma {:induction false} ForAppend(ts: seq<Task>, t: Task, dest: Hash)
    ensures For(ts + [t], dest) == For(ts, dest) + if t.dest == dest then [t] else []
  {
    if ts == [] {
      assert ts + [t] == [t];
    } else {
      assert (ts + [t])[1..] == ts[1..] + [t];
      ForAppend(ts[1..], t, dest);
    }
  }

  lemma {:induction false} MiddleAppend(xs: seq<Sender>, x: Sender, dest: Hash)
    ensures Middle(xs + [x], dest) == Middle(xs, dest) + Share(x, dest)
  {
    if xs == [] {
      assert xs + [x] == [x];
    } else {
      assert (xs + [x])[1..] == xs[1..] + [x] && (xs + [x])[0] == xs[0];
      MiddleAppend(xs[1..], x, dest);
      Associates(Share(xs[0], dest), Middle(xs[1..], dest), Share(x, dest));
    }
  }

  lemma Associates<T>(a: seq<T>, b: seq<T>, c: seq<T>)
    ensures a + (b + c) == (a + b) + c
  {
  }

  lemma {:induction false} NoMiddle(xs: seq<Sender>, dest: Hash)
    requires forall i | 0 <= i < |xs| :: xs[i].dest != dest
    ensures Middle(xs, dest) == []
  {
    if xs != [] {
      NoMiddle(xs[1..], dest);
    }
  }

  lemma {:induction false} OnlyMiddle(xs: seq<Sender>, s: nat, dest: Hash)
    requires OneSender(xs, dest) && s < |xs| && xs[s].dest == dest
    ensures Middle(xs, dest) == Content(xs[s])
  {
    if s == 0 {
      NoMiddle(xs[1..], dest);
    } else {
      OnlyMiddle(xs[1..], s - 1, dest);
    }
  }

  lemma {:induction false} OtherMiddle(xs: seq<Sender>, s: nat, x: Sender, dest: Hash)
    requires s < |xs| && xs[s].dest != dest && x.dest != dest
    ensures Middle(xs[s := x], dest) == Middle(xs, dest)
  {
    if s == 0 {
      assert xs[s := x][1..] == xs[1..];
    } else {
      assert xs[s := x][1..] == xs[1..][s - 1 := x];
      OtherMiddle(xs[1..], s - 1, x, dest);
    }
  }

  /** Changing one sender changes what the destination's senders hold only if it is the destination's. */
  lemma MiddleUpdate(xs: seq<Sender>, s: nat, x: Sender, dest: Hash)
    requires OneSender(xs, dest) && s < |xs| && x.dest == xs[s].dest
    ensures OneSender(xs[s := x], dest)
    ensures if x.dest == dest then Middle(xs, dest) == Content(xs[s]) && Middle(xs[s := x], dest) == Content(x)
            else Middle(xs[s := x], dest) == Middle(xs, dest)
  {
    if x.dest == dest {
      OnlyMiddle(xs, s, dest);
      OnlyMiddle(xs[s := x], s, dest);
    } else {
      OtherMiddle(xs, s, x, dest);
    }
  }

  // ---------- one step ----------

  /** Steps that neither send nor fail: the line as a whole stays, up to a newly accepted task at its end. */
  predicate Quiet(step: Step) {
    !(step.SenderFinish? || step.Unregister? || step.ResendCurrent? || step.DrainTake? || step.DrainEnd?)
  }

  lemma AddAtEnd(a: seq<Task>, m: seq<Task>, h: seq<Task>, d: seq<Task>, t: seq<Task>)
    ensures (a + (m + (h + d))) + t == a + (m + (h + (d + t)))
  {
  }

  lemma HandToMiddle(a: seq<Task>, m: seq<Task>, d: seq<Task>, t: seq<Task>)
    ensures a + (m + (t + d)) == a + ((m + t) + ([] + d))
  {
  }

  lemma MiddleToDone(a: seq<Task>, t: seq<Task>, m: seq<Task>, rest: seq<Task>)
    ensures a + ((t + m) + rest) == (a + t) + (m + rest)
  {
  }

  lemma ContentHead(x: Sender)
    requires x.current.Some?
    ensures Content(x) == [x.current.value] + Content(x.(current := None))
  {
  }

  function Added(st: Pipeline, step: Step, dest: Hash): seq<Task> {
    if step.Submit? && step.dest == dest then [Task(|st.accepted|, dest, step.message, 0)] else []
  }

  lemma SubmitLine(maxTries: int, st: Pipeline, d: Hash, message: seq<nat>, dest: Hash)
    ensures Line(Apply(maxTries, st, Submit(d, message)), dest) == Line(st, dest) + Added(st, Submit(d, message), dest)
  {
    ForAppend(st.dispatch, Task(|st.accepted|, d, message, 0), dest);
    AddAtEnd(For(st.finished, dest), Middle(st.senders, dest), HandFor(st.hand, dest), For(st.dispatch, dest),
             Added(st, Submit(d, message), dest));
  }

  lemma AddSenderLine(st: Pipeline, d: Hash, dest: Hash)
    ensures Middle(WithSender(st, d).senders, dest) == Middle(st.senders, dest)
  {
    MiddleAppend(st.senders, Sender(d, [], None, Running), dest);
  }

  lemma TakeNextLine(maxTries: int, st: Pipeline, dest: Hash)
    requires Enabled(st, TakeDispatch)
    ensures Line(Apply(maxTries, st, TakeDispatch), dest) == Line(st, dest)
  {
    assert st.dispatch == [st.dispatch[0]] + st.dispatch[1..];
    assert HandFor(st.hand, dest) + For(st.dispatch, dest) == For(st.dispatch, dest);
  }

  lemma QuietLine(maxTries: int, st: Pipeline, step: Step, dest: Hash)
    requires Enabled(st, step) && Quiet(step) && RoutingInv(st) && OneSender(st.senders, dest)
    ensures var st' := Apply(maxTries, st, step);
            st'.finished == st.finished && Line(st', dest) == Line(st, dest) + Added(st, step, dest)
  {
    match step
    case Submit(d, message) => SubmitLine(maxTries, st, d, message, dest);
    case Register(d) => AddSenderLine(st, d, dest);
    case CreateSender => AddSenderLine(st, st.hand.t.dest, dest);
    case TakeDispatch => TakeNextLine(maxTries, st, dest);
    case LookUp =>
    case PostToSender => PostLine(maxTries, st, dest);
    case SenderTake(s) => TakeLine(maxTries, st, s, dest);
  }

  lemma PostLine(maxTries: int, st: Pipeline, dest: Hash)
    requires Enabled(st, PostToSender) && RoutingInv(st) && OneSender(st.senders, dest)
    ensures Line(Apply(maxTries, st, PostToSender), dest) == Line(st, dest)
  {
    var x := st.senders[st.hand.s];
    var x' := x.(queue := x.queue + [st.hand.t]);
    MiddleUpdate(st.senders, st.hand.s, x', dest);
    assert Content(x') == Content(x) + [st.hand.t];
    HandToMiddle(For(st.finished, dest), Middle(st.senders, dest), For(st.dispatch, dest), HandFor(st.hand, dest));
  }

  lemma TakeLine(maxTries: int, st: Pipeline, s: nat, dest: Hash)
    requires Enabled(st, SenderTake(s)) && OneSender(st.senders, dest)
    ensures Line(Apply(maxTries, st, SenderTake(s)), dest) == Line(st, dest)
  {
    var x := st.senders[s];
    MiddleUpdate(st.senders, s, TakeFromQueue(x), dest);
    assert Content(TakeFromQueue(x)) == Content(x);
  }

  lemma FinishOwn(maxTries: int, st: Pipeline, s: nat)
    requires Enabled(st, SenderFinish(s)) && RoutingInv(st) && OneSender(st.senders, st.senders[s].dest)
    ensures Line(Apply(maxTries, st, SenderFinish(s)), st.senders[s].dest) == Line(st, st.senders[s].dest)
  {
    var x := st.senders[s];
    var t, rest, dest := x.current.value, Content(x.(current := None)), x.dest;
    assert OnlyFor(x);
    MiddleUpdate(st.senders, s, x.(current := None), dest);
    ForAppend(st.finished, t, dest);
    ContentHead(x);
    MiddleToDone(For(st.finished, dest), [t], rest, HandFor(st.hand, dest) + For(st.dispatch, dest));
  }

  lemma FinishElsewhere(maxTries: int, st: Pipeline, s: nat, dest: Hash)
    requires Enabled(st, SenderFinish(s)) && RoutingInv(st) && OneSender(st.senders, dest) && st.senders[s].dest != dest
    ensures var st' := Apply(maxTries, st, SenderFinish(s));
            For(st'.finished, dest) == For(st.finished, dest) && Middle(st'.senders, dest) == Middle(st.senders, dest)
  {
    var x := st.senders[s];
    assert OnlyFor(x);
    MiddleUpdate(st.senders, s, x.(current := None), dest);
    ForAppend(st.finished, x.current.value, dest);
  }

  /** A failing sender's steps concern only its own destination. */
  lemma FailingElsewhere(maxTries: int, st: Pipeline, step: Step, dest: Hash)
    requires Enabled(st, step) && RoutingInv(st) && OneSender(st.senders, dest)
    requires step.Unregister? || step.ResendCurrent? || step.DrainTake? || step.DrainEnd?
    requires st.senders[step.s].dest != dest
    ensures Line(Apply(maxTries, st, step), dest) == Line(st, dest)
  {
    var s, st' := step.s, Apply(maxTries, st, step);
    MiddleUpdate(st.senders, s, st'.senders[s], dest);
    if step.ResendCurrent? {
      ResentElsewhere(maxTries, st, s, dest);
    }
  }

  lemma ResentElsewhere(maxTries: int, st: Pipeline, s: nat, dest: Hash)
    requires Enabled(st, ResendCurrent(s)) && RoutingInv(st) && st.senders[s].dest != dest
    ensures For(Apply(maxTries, st, ResendCurrent(s)).dispatch, dest) == For(st.dispatch, dest)
  {
    var t := st.senders[s].current.value;
    assert OnlyFor(st.senders[s]);
    ForAppend(st.dispatch, t.(tries := t.tries + 1), dest);
  }

  lemma StepKeepsOne(maxTries: int, st: Pipeline, step: Step, dest: Hash)
    requires Enabled(st, step) && OneSender(Apply(maxTries, st, step).senders, dest)
    ensures OneSender(st.senders, dest)
  {
    var xs, xs' := st.senders, Apply(maxTries, st, step).senders;
    assert |xs| <= |xs'| && forall i | 0 <= i < |xs| :: xs'[i].dest == xs[i].dest;
  }

  lemma StepKeepsLine(maxTries: int, st: Pipeline, step: Step, dest: Hash)
    requires Enabled(st, step) && RoutingInv(st) && LineInv(st, dest)
    requires OneSender(Apply(maxTries, st, step).senders, dest)
    ensures LineInv(Apply(maxTries, st, step), dest)
  {
    StepKeepsOne(maxTries, st, step, dest);
    var st' := Apply(maxTries, st, step);
    if Quiet(step) {
      QuietLine(maxTries, st, step, dest);
      QuietKeepsLine(maxTries, st, step, dest);
    } else if st.senders[step.s].dest != dest {
      ElsewhereKeepsLine(maxTries, st, step, dest);
    } else if step.SenderFinish? {
      FinishKeepsLine(maxTries, st, step.s, dest);
    } else {
      assert !AllRunning(st'.senders, dest) by { assert st'.senders[step.s].phase != Running; }
    }
  }

  lemma ElsewhereKeepsLine(maxTries: int, st: Pipeline, step: Step, dest: Hash)
    requires Enabled(st, step) && !Quiet(step) && st.senders[step.s].dest != dest
    requires RoutingInv(st) && OneSender(st.senders, dest) && LineInv(st, dest)
    ensures LineInv(Apply(maxTries, st, step), dest)
  {
    if step.SenderFinish? {
      FinishElsewhere(maxTries, st, step.s, dest);
    } else {
      FailingElsewhere(maxTries, st, step, dest);
    }
    SameRunning(st.senders, step.s, Apply(maxTries, st, step).senders[step.s], dest);
  }

  lemma SameRunning(xs: seq<Sender>, s: nat, x: Sender, dest: Hash)
    requires s < |xs| && xs[s].dest != dest && x.dest != dest
    ensures AllRunning(xs[s := x], dest) <==> AllRunning(xs, dest)
  {
    assert forall i | 0 <= i < |xs| && i != s :: xs[s := x][i] == xs[i];
  }

  lemma QuietKeepsLine(maxTries: int, st: Pipeline, step: Step, dest: Hash)
    requires Enabled(st, step) && Quiet(step) && LineInv(st, dest)
    requires var st' := Apply(maxTries, st, step);
             st'.finished == st.finished && Line(st', dest) == Line(st, dest) + Added(st, step, dest)
    ensures LineInv(Apply(maxTries, st, step), dest)
  {
    var st' := Apply(maxTries, st, step);
    AcceptedGrows(maxTries, st, step, dest);
    if AllRunning(st'.senders, dest) {
      QuietRunning(maxTries, st, step, dest);
    }
  }

  lemma AcceptedGrows(maxTries: int, st: Pipeline, step: Step, dest: Hash)
    requires Enabled(st, step)
    ensures For(Apply(maxTries, st, step).accepted, dest) == For(st.accepted, dest) + Added(st, step, dest)
  {
    if step.Submit? {
      ForAppend(st.accepted, Task(|st.accepted|, step.dest, step.message, 0), dest);
    }
  }

  lemma QuietRunning(maxTries: int, st: Pipeline, step: Step, dest: Hash)
    requires Enabled(st, step) && Quiet(step) && AllRunning(Apply(maxTries, st, step).senders, dest)
    ensures AllRunning(st.senders, dest)
  {
    var xs, xs' := st.senders, Apply(maxTries, st, step).senders;
    assert |xs| <= |xs'| && forall i | 0 <= i < |xs| :: xs'[i].dest == xs[i].dest && xs'[i].phase == xs[i].phase;
  }

  lemma FinishKeepsLine(maxTries: int, st: Pipeline, s: nat, dest: Hash)
    requires Enabled(st, SenderFinish(s)) && RoutingInv(st) && OneSender(st.senders, dest) && LineInv(st, dest)
    requires st.senders[s].dest == dest
    ensures LineInv(Apply(maxTries, st, SenderFinish(s)), dest)
  {
    FinishOwn(maxTries, st, s);
    assert AllRunning(st.senders, dest);
  }

  // ---------- whole runs ----------

  /** While a destination has had one sender, its tasks are sent in the order they were accepted. */
  lemma {:induction false} RunInOrder(maxTries: int, b: seq<Pipeline>, steps: seq<Step>, k: nat, dest: Hash)
    requires IsRun(maxTries, b, steps) && k < |b| && OneSender(b[k].senders, dest)
    ensures LineInv(b[k], dest)
  {
    if k > 0 {
      assert b[k - 1 + 1] == Apply(maxTries, b[k - 1], steps[k - 1]);
      StepKeepsOne(maxTries, b[k - 1], steps[k - 1], dest);
      RunInOrder(maxTries, b, steps, k - 1, dest);
      RunRoutes(maxTries, b, steps, k - 1);
      StepKeepsLine(maxTries, b[k - 1], steps[k - 1], dest);
    }
  }

  datatype OrderGuards = OrderGuards(
    neverFails: bool,    // no sender for the destination fails
    oneSender: bool)     // no second sender for the destination is ever registered

  predicate Respects(og: OrderGuards, b: seq<Pipeline>, steps: seq<Step>, dest: Hash)
    requires |b| == |steps| + 1
  {
    && (og.neverFails ==>
          forall k | 0 <= k < |steps| && steps[k].Unregister? && steps[k].s < |b[k].senders| ::
            b[k].senders[steps[k].s].dest != dest)
    && (og.oneSender ==> OneSender(b[|b| - 1].senders, dest))
  }

  ghost predicate EveryRunInOrder(og: OrderGuards) {
    forall maxTries: int, b: seq<Pipeline>, steps: seq<Step>, dest: Hash
      | IsRun(maxTries, b, steps) && Respects(og, b, steps, dest) :: InOrder(b[|b| - 1], dest)
  }

  /** A run in which nothing fails. */
  ghost predicate Calm(maxTries: int, st: Pipeline) {
    exists b: seq<Pipeline>, steps: seq<Step> ::
      IsRun(maxTries, b, steps) && b[|b| - 1] == st && forall k | 0 <= k < |steps| :: !steps[k].Unregister?
  }

  lemma GoCalmly(maxTries: int, st: Pipeline, step: Step) returns (st': Pipeline)
    requires Calm(maxTries, st) && Enabled(st, step) && !step.Unregister?
    ensures st' == Apply(maxTries, st, step) && Calm(maxTries, st')
  {
    st' := Apply(maxTries, st, step);
    var b: seq<Pipeline>, steps: seq<Step> :|
      IsRun(maxTries, b, steps) && b[|b| - 1] == st && forall k | 0 <= k < |steps| :: !steps[k].Unregister?;
    assert IsRun(maxTries, b + [st'], steps + [step]);
  }

  lemma FirstFoundCalmly(maxTries: int, dest: Hash, message: seq<nat>) returns (st: Pipeline)
    ensures Calm(maxTries, st)
    ensures var t := Task(0, dest, message, 0);
            st == Pipeline([t], [], Found(t, 0), [Sender(dest, [], None, Running)], map[dest := [0]], [], [])
  {
    var t := Task(0, dest, message, 0);
    assert IsRun(maxTries, [INITIAL], []);
    st := GoCalmly(maxTries, INITIAL, Submit(dest, message));
    st := GoCalmly(maxTries, st, TakeDispatch);
    assert st == Pipeline([t], [], Taken(t), [], map[], [], []);
    st := GoCalmly(maxTries, st, LookUp);
    st := GoCalmly(maxTries, st, CreateSender);
    assert st.senders == [Sender(dest, [], None, Running)];
    assert [0] + [] == [0];
    assert st.registry == map[dest := [0]];
  }

  /** The first packet waits with its sender while a second connection is registered and the next packet is taken. */
  lemma NextTaken(maxTries: int, dest: Hash, message: seq<nat>) returns (st: Pipeline)
    ensures Calm(maxTries, st)
    ensures st.accepted == [Task(0, dest, message, 0), Task(1, dest, message, 0)] && st.finished == []
    ensures st.hand == Taken(Task(1, dest, message, 0)) && Find(st.registry, dest) == Some(1)
    ensures |st.senders| == 2 && st.senders[1] == Sender(dest, [], None, Running)
  {
    st := FirstFoundCalmly(maxTries, dest, message);
    st := GoCalmly(maxTries, st, PostToSender);
    st := GoCalmly(maxTries, st, Register(dest));
    assert st.senders[1] == Sender(dest, [], None, Running);
    st := GoCalmly(maxTries, st, Submit(dest, message));
    st := GoCalmly(maxTries, st, TakeDispatch);
  }

  /** Once a second connection is registered, the next packet goes through it and overtakes the first. */
  lemma SecondSenderOvertakes(maxTries: int, dest: Hash, message: seq<nat>) returns (st: Pipeline)
    ensures Calm(maxTries, st) && !InOrder(st, dest)
    ensures st.accepted == [Task(0, dest, message, 0), Task(1, dest, message, 0)]
    ensures st.finished == [Task(1, dest, message, 0)]
  {
    var t, u := Task(0, dest, message, 0), Task(1, dest, message, 0);
    st := NextTaken(maxTries, dest, message);
    st := GoCalmly(maxTries, st, LookUp);
    assert st.hand == Found(u, 1);
    st := Overtake(maxTries, st, dest, u);
    OutOfOrder(st, dest, t, u);
  }

  lemma Overtake(maxTries: int, st: Pipeline, dest: Hash, u: Task) returns (st': Pipeline)
    requires Calm(maxTries, st) && st.hand == Found(u, 1) && st.finished == []
    requires |st.senders| == 2 && st.senders[1] == Sender(dest, [], None, Running)
    ensures Calm(maxTries, st') && st'.accepted == st.accepted && st'.finished == [u]
  {
    var x := st.senders[1];
    st' := GoCalmly(maxTries, st, PostToSender);
    assert st'.senders == st.senders[1 := x.(queue := [] + [u])];
    assert st'.senders[1].queue == [] + [u] == [u];
    st' := GoCalmly(maxTries, st', SenderTake(1));
    st' := GoCalmly(maxTries, st', SenderFinish(1));
  }

  lemma OutOfOrder(st: Pipeline, dest: Hash, t: Task, u: Task)
    requires st.accepted == [t, u] && st.finished == [u] && t.dest == dest && u.dest == dest && t != u
    ensures !InOrder(st, dest)
  {
    assert [t, u][1..] == [u] && [u][1..] == [];
    assert For([u], dest) == [u] + [] == [u];
    assert For([t, u], dest) == [t] + [u] == [t, u];
    assert For(st.finished, dest)[0] != For(st.accepted, dest)[0];
  }

  lemma CalmRespects(og: OrderGuards, b: seq<Pipeline>, steps: seq<Step>, dest: Hash)
    requires |b| == |steps| + 1 && !og.oneSender && forall k | 0 <= k < |steps| :: !steps[k].Unregister?
    ensures Respects(og, b, steps, dest)
  {
  }

  /** Sending is in order in every run exactly under the guard of one sender; that no sender fails is not enough. */
  lemma InOrderIffOneSender(og: OrderGuards)
    ensures EveryRunInOrder(og) <==> og.oneSender
  {
    if og.oneSender {
      forall maxTries: int, b: seq<Pipeline>, steps: seq<Step>, dest: Hash
        | IsRun(maxTries, b, steps) && Respects(og, b, steps, dest)
        ensures InOrder(b[|b| - 1], dest)
      {
        RunInOrder(maxTries, b, steps, |b| - 1, dest);
      }
    } else {
      var st := SecondSenderOvertakes(3, [], []);
      var b: seq<Pipeline>, steps: seq<Step> :|
        IsRun(3, b, steps) && b[|b| - 1] == st && forall k | 0 <= k < |steps| :: !steps[k].Unregister?;
      CalmRespects(og, b, steps, []);
    }
  }
}
