/** Routing, stranded tasks, and the scheduler object whose methods are the pipeline's atomic steps. */
module SendRouting {
  import opened Common
  import opened SendPipeline

  // ---------- routing ----------

  /** The running senders below n for a destination, most recently registered first. */
  function RunningBelow(xs: seq<Sender>, n: nat, dest: Hash): seq<nat>
    requires n <= |xs|
  {
    if n == 0 then []
    else if xs[n - 1].phase == Running && xs[n - 1].dest == dest then [n - 1] + RunningBelow(xs, n - 1, dest)
    else RunningBelow(xs, n - 1, dest)
  }

  function RunningFor(xs: seq<Sender>, dest: Hash): seq<nat> {
    RunningBelow(xs, |xs|, dest)
  }

  predicate OnlyFor(x: Sender) {
    && (forall t | t in x.queue :: t.dest == x.dest)
    && (x.current.Some? ==> x.current.value.dest == x.dest && x.phase != Done)
  }

  ghost predicate RegistryOk(st: Pipeline) {
    forall dest: Hash :: Registered(st.registry, dest) == RunningFor(st.senders, dest)
  }

  ghost predicate RoutingInv(st: Pipeline) {
    && RegistryOk(st)
    && AllOnlyFor(st.senders)
    && (st.hand.Found? ==> st.hand.s < |st.senders| && st.senders[st.hand.s].dest == st.hand.t.dest)
  }

  lemma {:induction false} RunningMembers(xs: seq<Sender>, n: nat, dest: Hash, s: nat)
    requires n <= |xs|
    ensures var r := RunningBelow(xs, n, dest);
            && (s in r <==> s < n && xs[s].phase == Running && xs[s].dest == dest)
            && (s in r ==> s <= r[0])
  {
    if n > 0 {
      RunningMembers(xs, n - 1, dest, s);
    }
  }

  lemma {:induction false} RunningUntouched(xs: seq<Sender>, n: nat, s: nat, x: Sender, dest: Hash)
    requires n <= s < |xs|
    ensures RunningBelow(xs[s := x], n, dest) == RunningBelow(xs, n, dest)
    ensures s !in RunningBelow(xs, n, dest)
  {
    if n > 0 {
      RunningUntouched(xs, n - 1, s, x, dest);
    }
  }

  /** The list of running senders after an update: the sender goes when it stops running. */
  predicate Updated(xs: seq<Sender>, s: nat, x: Sender, dest: Hash, was: seq<nat>, now: seq<nat>)
    requires s < |xs|
  {
    now == if dest == x.dest && xs[s].phase == Running && x.phase != Running then RemoveFirst(was, s) else was
  }

  lemma RunningStep(xs: seq<Sender>, n: nat, s: nat, x: Sender, dest: Hash)
    requires s < n < |xs| && Updated(xs, s, x, dest, RunningBelow(xs, n, dest), RunningBelow(xs[s := x], n, dest))
    ensures Updated(xs, s, x, dest, RunningBelow(xs, n + 1, dest), RunningBelow(xs[s := x], n + 1, dest))
  {
    RemoveSkips(n, RunningBelow(xs, n, dest), s);
  }

  lemma RunningFirst(xs: seq<Sender>, s: nat, x: Sender, dest: Hash)
    requires s < |xs| && x.dest == xs[s].dest && (x.phase == Running ==> xs[s].phase == Running)
    ensures Updated(xs, s, x, dest, RunningBelow(xs, s + 1, dest), RunningBelow(xs[s := x], s + 1, dest))
  {
    RunningUntouched(xs, s, s, x, dest);
    RemoveSkips(s, RunningBelow(xs, s, dest), s);
  }

  lemma {:induction false} RunningUpdate(xs: seq<Sender>, n: nat, s: nat, x: Sender, dest: Hash)
    requires s < n <= |xs| && x.dest == xs[s].dest && (x.phase == Running ==> xs[s].phase == Running)
    ensures Updated(xs, s, x, dest, RunningBelow(xs, n, dest), RunningBelow(xs[s := x], n, dest))
  {
    if n == s + 1 {
      RunningFirst(xs, s, x, dest);
    } else {
      RunningUpdate(xs, n - 1, s, x, dest);
      RunningStep(xs, n - 1, s, x, dest);
    }
  }

  lemma {:induction false} RunningAppend(xs: seq<Sender>, n: nat, x: Sender, dest: Hash)
    requires n <= |xs|
    ensures RunningBelow(xs + [x], n, dest) == RunningBelow(xs, n, dest)
  {
    if n > 0 {
      RunningAppend(xs, n - 1, x, dest);
    }
  }

  lemma RemoveSkips(y: nat, ys: seq<nat>, s: nat)
    ensures RemoveFirst([y] + ys, s) == if y == s then ys else [y] + RemoveFirst(ys, s)
  {
    assert ([y] + ys)[1..] == ys;
  }

  lemma RegistryAfterRegister(st: Pipeline, dest: Hash)
    requires RegistryOk(st)
    ensures RegistryOk(WithSender(st, dest))
  {
    var st' := WithSender(st, dest);
    forall d: Hash
      ensures Registered(st'.registry, d) == RunningFor(st'.senders, d)
    {
      RunningAppend(st.senders, |st.senders|, Sender(dest, [], None, Running), d);
      assert Registered(st.registry, d) == RunningFor(st.senders, d);
    }
  }

  lemma RegistryAfterUpdate(st: Pipeline, s: nat, x: Sender, registry: map<Hash, seq<nat>>)
    requires RegistryOk(st) && s < |st.senders| && x.dest == st.senders[s].dest
    requires if st.senders[s].phase == Running && x.phase != Running
             then registry == st.registry[x.dest := RemoveFirst(Registered(st.registry, x.dest), s)]
             else registry == st.registry && (x.phase == Running ==> st.senders[s].phase == Running)
    ensures forall d: Hash :: Registered(registry, d) == RunningFor(st.senders[s := x], d)
  {
    forall d: Hash
      ensures Registered(registry, d) == RunningFor(st.senders[s := x], d)
    {
      assert Registered(st.registry, d) == RunningFor(st.senders, d);
      RunningUpdate(st.senders, |st.senders|, s, x, d);
    }
  }

  lemma StepKeepsRegistry(maxTries: int, st: Pipeline, step: Step)
    requires RegistryOk(st) && Enabled(st, step)
    ensures RegistryOk(Apply(maxTries, st, step))
  {
    var st' := Apply(maxTries, st, step);
    match step
    case Submit(_, _) =>
    case TakeDispatch =>
    case LookUp =>
    case Register(dest) => RegistryAfterRegister(st, dest);
    case CreateSender => RegistryAfterRegister(st, st.hand.t.dest);
    case PostToSender => RegistryAfterUpdate(st, st.hand.s, st'.senders[st.hand.s], st'.registry);
    case SenderTake(s) => RegistryAfterUpdate(st, s, st'.senders[s], st'.registry);
    case SenderFinish(s) => RegistryAfterUpdate(st, s, st'.senders[s], st'.registry);
    case Unregister(s) => RegistryAfterUpdate(st, s, st'.senders[s], st'.registry);
    case ResendCurrent(s) => RegistryAfterUpdate(st, s, st'.senders[s], st'.registry);
    case DrainTake(s) => RegistryAfterUpdate(st, s, st'.senders[s], st'.registry);
    case DrainEnd(s) => RegistryAfterUpdate(st, s, st'.senders[s], st'.registry);
  }

  /** Lookup returns the most recently registered sender for the destination that has not unregistered. */
  lemma LookupIsNewestRunning(st: Pipeline, dest: Hash)
    requires RegistryOk(st)
    ensures match Find(st.registry, dest)
            case Some(s) =>
              && s < |st.senders| && st.senders[s].phase == Running && st.senders[s].dest == dest
              && forall s' | s < s' < |st.senders| :: !(st.senders[s'].phase == Running && st.senders[s'].dest == dest)
            case None =>
              forall s | 0 <= s < |st.senders| :: !(st.senders[s].phase == Running && st.senders[s].dest == dest)
  {
    assert Registered(st.registry, dest) == RunningFor(st.senders, dest);
    var r := RunningFor(st.senders, dest);
    forall s: nat
      ensures s in r <==> s < |st.senders| && st.senders[s].phase == Running && st.senders[s].dest == dest
      ensures s in r ==> s <= r[0]
    {
      RunningMembers(st.senders, |st.senders|, dest, s);
    }
    if r != [] {
      assert r[0] in r;
    }
  }

  predicate AllOnlyFor(xs: seq<Sender>) {
    forall s | 0 <= s < |xs| :: OnlyFor(xs[s])
  }

  lemma SenderKeepsOnlyFor(x: Sender, t: Task)
    requires OnlyFor(x)
    ensures t.dest == x.dest ==> OnlyFor(x.(queue := x.queue + [t]))
    ensures x.queue != [] && x.phase != Done ==> OnlyFor(TakeFromQueue(x))
  {
    if x.queue != [] {
      assert x.queue[0] in x.queue;
    }
  }

  lemma StepKeepsOnlyFor(maxTries: int, st: Pipeline, step: Step)
    requires RoutingInv(st) && Enabled(st, step)
    ensures AllOnlyFor(Apply(maxTries, st, step).senders)
  {
    if step.PostToSender? {
      SenderKeepsOnlyFor(st.senders[st.hand.s], st.hand.t);
    } else if step.SenderTake? || step.DrainTake? {
      SenderKeepsOnlyFor(st.senders[step.s], st.senders[step.s].queue[0]);
    }
  }

  lemma StepKeepsRouting(maxTries: int, st: Pipeline, step: Step)
    requires RoutingInv(st) && Enabled(st, step)
    ensures RoutingInv(Apply(maxTries, st, step))
  {
    StepKeepsRegistry(maxTries, st, step);
    StepKeepsOnlyFor(maxTries, st, step);
    if step.LookUp? {
      LookupIsNewestRunning(st, st.hand.t.dest);
    }
  }

  /** In every reachable state senders hold only their own destination's tasks, and the registry is exact. */
  lemma {:induction false} RunRoutes(maxTries: int, b: seq<Pipeline>, steps: seq<Step>, k: nat)
    requires IsRun(maxTries, b, steps) && k < |b|
    ensures RoutingInv(b[k])
  {
    if k > 0 {
      RunRoutes(maxTries, b, steps, k - 1);
      StepKeepsRouting(maxTries, b[k - 1], steps[k - 1]);
      assert b[k - 1 + 1] == Apply(maxTries, b[k - 1], steps[k - 1]);
    }
  }

  // ---------- stranded tasks ----------

  /** A step after which the dispatch thread holds t and has found the registered sender s for it. */
  predicate FindsSender(b: seq<Pipeline>, steps: seq<Step>, i: nat, t: Task, s: nat)
    requires |b| == |steps| + 1 && i < |steps|
  {
    && (steps[i].LookUp? || steps[i].CreateSender?)
    && b[i + 1].hand == Found(t, s)
    && s < |b[i + 1].senders| && b[i + 1].senders[s].phase == Running
  }

  predicate PhaseAt(b: seq<Pipeline>, k: nat, s: nat, phase: Phase)
    requires k < |b|
  {
    s < |b[k].senders| && b[k].senders[s].phase == phase
  }

  lemma {:induction false} FoundEarlier(maxTries: int, b: seq<Pipeline>, steps: seq<Step>, k: nat, t: Task, s: nat)
    returns (i: nat)
    requires IsRun(maxTries, b, steps) && k < |b| && b[k].hand == Found(t, s)
    ensures i < k && FindsSender(b, steps, i, t, s)
  {
    assert b[k - 1 + 1] == Apply(maxTries, b[k - 1], steps[k - 1]);
    if steps[k - 1].LookUp? || steps[k - 1].CreateSender? {
      RunRoutes(maxTries, b, steps, k - 1);
      if steps[k - 1].LookUp? {
        LookupIsNewestRunning(b[k - 1], b[k - 1].hand.t.dest);
      }
      i := k - 1;
    } else {
      i := FoundEarlier(maxTries, b, steps, k - 1, t, s);
    }
  }

  /** A task now in a sender's queue was posted there and has been there since. */
  lemma {:induction false} PostedEarlier(maxTries: int, b: seq<Pipeline>, steps: seq<Step>, k: nat, t: Task, s: nat)
    returns (p: nat)
    requires IsRun(maxTries, b, steps) && k < |b| && s < |b[k].senders| && t in b[k].senders[s].queue
    ensures p < k && steps[p] == PostToSender && b[p].hand == Found(t, s)
    ensures forall j | p < j <= k :: s < |b[j].senders| && t in b[j].senders[s].queue
  {
    assert b[k - 1 + 1] == Apply(maxTries, b[k - 1], steps[k - 1]);
    if s < |b[k - 1].senders| && t in b[k - 1].senders[s].queue {
      p := PostedEarlier(maxTries, b, steps, k - 1, t, s);
    } else {
      p := k - 1;
    }
  }

  /** The step at which a sender that is no longer in `phase` left it. */
  lemma {:induction false} LeftPhase(
    maxTries: int, b: seq<Pipeline>, steps: seq<Step>, from: nat, k: nat, s: nat, phase: Phase)
    returns (u: nat)
    requires IsRun(maxTries, b, steps) && from <= k < |b|
    requires PhaseAt(b, from, s, phase) && !PhaseAt(b, k, s, phase)
    ensures from <= u < k && PhaseAt(b, u, s, phase) && !PhaseAt(b, u + 1, s, phase)
    ensures steps[u] == if phase == Running then Unregister(s) else DrainEnd(s)
    ensures PhaseAt(b, u + 1, s, if phase == Running then Draining else Done)
    decreases k - from
  {
    assert b[from + 1] == Apply(maxTries, b[from], steps[from]);
    if PhaseAt(b, from + 1, s, phase) {
      u := LeftPhase(maxTries, b, steps, from + 1, k, s, phase);
    } else {
      u := from;
    }
  }

  /**
   A task is in the queue of a finished sender only through one race: the dispatch thread looked the
   sender up while it was registered, the sender then unregistered and drained its queue, and the
   task was posted after that.
   */
  lemma StrandedOnlyByLatePost(maxTries: int, b: seq<Pipeline>, steps: seq<Step>, k: nat, s: nat, t: Task)
    returns (i: nat, u: nat, d: nat, p: nat)
    requires IsRun(maxTries, b, steps) && k < |b| && PhaseAt(b, k, s, Done) && t in b[k].senders[s].queue
    ensures i < u < d < p < k
    ensures FindsSender(b, steps, i, t, s)
    ensures steps[u] == Unregister(s) && steps[d] == DrainEnd(s) && b[d].senders[s].queue == []
    ensures steps[p] == PostToSender && b[p].hand == Found(t, s)
  {
    p := PostedEarlier(maxTries, b, steps, k, t, s);
    i := FoundEarlier(maxTries, b, steps, p, t, s);
    u := LeftPhase(maxTries, b, steps, i + 1, k, s, Running);
    d := LeftPhase(maxTries, b, steps, u + 1, k, s, Draining);
    assert b[d + 1] == Apply(maxTries, b[d], steps[d]);
  }

  /** The dispatch thread posts t to sender s, which has already finished. */
  predicate LatePostAt(b: seq<Pipeline>, steps: seq<Step>, p: nat, t: Task, s: nat)
    requires |b| == |steps| + 1 && p < |steps|
  {
    steps[p] == PostToSender && b[p].hand == Found(t, s) && PhaseAt(b, p, s, Done)
  }

  predicate InFinishedQueue(st: Pipeline, t: Task, s: nat) {
    s < |st.senders| && st.senders[s].phase == Done && t in st.senders[s].queue
  }

  /** Nobody takes anything from a finished sender, and it does not start again. */
  lemma StepKeepsStranded(maxTries: int, st: Pipeline, step: Step, t: Task, s: nat)
    requires Enabled(st, step) && InFinishedQueue(st, t, s)
    ensures InFinishedQueue(Apply(maxTries, st, step), t, s)
  {
  }

  /** A task posted to a finished sender stays there for good, whatever happens afterwards. */
  lemma {:induction false} LatePostStrandsForGood(
    maxTries: int, b: seq<Pipeline>, steps: seq<Step>, p: nat, k: nat, t: Task, s: nat)
    requires IsRun(maxTries, b, steps) && p < k < |b| && LatePostAt(b, steps, p, t, s)
    ensures InFinishedQueue(b[k], t, s)
    decreases k
  {
    assert b[k - 1 + 1] == Apply(maxTries, b[k - 1], steps[k - 1]);
    if p < k - 1 {
      LatePostStrandsForGood(maxTries, b, steps, p, k - 1, t, s);
      StepKeepsStranded(maxTries, b[k - 1], steps[k - 1], t, s);
    }
  }

  lemma {:induction false} DoneStays(maxTries: int, b: seq<Pipeline>, steps: seq<Step>, d: nat, k: nat, s: nat)
    requires IsRun(maxTries, b, steps) && d <= k < |b| && PhaseAt(b, d, s, Done)
    ensures PhaseAt(b, k, s, Done)
    decreases k
  {
    if d < k {
      DoneStays(maxTries, b, steps, d, k - 1, s);
      assert b[k - 1 + 1] == Apply(maxTries, b[k - 1], steps[k - 1]);
    }
  }

  /** A task is in the queue of a finished sender exactly when a post found that sender finished. */
  lemma StrandedIffLatePost(maxTries: int, b: seq<Pipeline>, steps: seq<Step>, k: nat, s: nat, t: Task)
    requires IsRun(maxTries, b, steps) && k < |b|
    ensures InFinishedQueue(b[k], t, s) <==> exists p | 0 <= p < k :: LatePostAt(b, steps, p, t, s)
  {
    if InFinishedQueue(b[k], t, s) {
      var i, u, d, p := StrandedOnlyByLatePost(maxTries, b, steps, k, s, t);
      assert b[d + 1] == Apply(maxTries, b[d], steps[d]);
      DoneStays(maxTries, b, steps, d + 1, p, s);
      assert LatePostAt(b, steps, p, t, s);
    }
    if p :| 0 <= p < k && LatePostAt(b, steps, p, t, s) {
      LatePostStrandsForGood(maxTries, b, steps, p, k, t, s);
    }
  }

  /** What is left when only failures and outside events could still happen. */
  predicate AtRest(st: Pipeline) {
    && !Enabled(st, TakeDispatch) && !Enabled(st, LookUp) && !Enabled(st, CreateSender) && !Enabled(st, PostToSender)
    && forall s: nat | s < |st.senders| ::
         && !Enabled(st, SenderTake(s)) && !Enabled(st, SenderFinish(s)) && !Enabled(st, ResendCurrent(s))
         && !Enabled(st, DrainTake(s)) && !Enabled(st, DrainEnd(s))
  }

  predicate Holds(ts: seq<Task>, what: Task) {
    exists t | t in ts :: t.(tries := 0) == what
  }

  predicate Stranded(st: Pipeline, what: Task) {
    exists s | 0 <= s < |st.senders| :: st.senders[s].phase == Done && Holds(st.senders[s].queue, what)
  }

  lemma {:induction false} CountedIsHeld(what: Task, p: Place, ts: seq<Task>)
    ensures Sum(Occurs(what), p, ts) > 0 ==> Holds(ts, what)
  {
    if ts != [] {
      CountedIsHeld(what, p, ts[1..]);
      assert ts[0] in ts;
      if Holds(ts[1..], what) {
        var t :| t in ts[1..] && t.(tries := 0) == what;
        assert t in ts;
      }
    }
  }

  lemma {:induction false} CountedInSender(what: Task, xs: seq<Sender>) returns (s: nat)
    requires forall x | x in xs :: x.current.None?
    requires SendersTotal(Occurs(what), xs) > 0
    ensures s < |xs| && Holds(xs[s].queue, what)
  {
    CountedIsHeld(what, InQueue, xs[0].queue);
    if Sum(Occurs(what), InQueue, xs[0].queue) > 0 {
      s := 0;
    } else {
      s := CountedInSender(what, xs[1..]);
      s := s + 1;
    }
  }

  /** When the pipeline has come to rest every accepted task was sent, was dropped, or is stranded. */
  lemma RestingPlaces(maxTries: int, b: seq<Pipeline>, steps: seq<Step>, k: nat, what: Task)
    requires IsRun(maxTries, b, steps) && k < |b| && AtRest(b[k]) && what in b[k].accepted
    ensures Holds(b[k].finished, what) || Holds(b[k].dropped, what) || Stranded(b[k], what)
  {
    var st := b[k];
    RunRoutes(maxTries, b, steps, k);
    AtRestShape(st);
    RunConserves(maxTries, b, steps, k, what);
    var x :| 0 <= x < |st.accepted| && st.accepted[x] == what;
    CountAtRest(st, what);
  }

  lemma {:induction false} HeldIsCounted(what: Task, p: Place, ts: seq<Task>)
    requires Holds(ts, what)
    ensures Sum(Occurs(what), p, ts) >= 1
  {
    var t :| t in ts && t.(tries := 0) == what;
    SumNonNegative(Occurs(what), p, ts[1..]);
    if ts[0] != t {
      assert t in ts[1..];
      HeldIsCounted(what, p, ts[1..]);
    }
  }

  lemma {:induction false} HeldInSender(what: Task, xs: seq<Sender>, s: nat)
    requires s < |xs| && Holds(xs[s].queue, what)
    ensures SendersTotal(Occurs(what), xs) >= 1
  {
    SumNonNegative(Occurs(what), InQueue, xs[0].queue);
    SendersNonNegative(Occurs(what), xs[1..]);
    if s == 0 {
      HeldIsCounted(what, InQueue, xs[0].queue);
    } else {
      HeldInSender(what, xs[1..], s - 1);
    }
  }

  /** A stranded task has been neither sent nor dropped. */
  lemma StrandedIsNotDone(st: Pipeline, what: Task)
    requires Stranded(st, what) && Total(Occurs(what), st) == 1
    ensures !Holds(st.finished, what) && !Holds(st.dropped, what)
  {
    var f := Occurs(what);
    var s :| 0 <= s < |st.senders| && st.senders[s].phase == Done && Holds(st.senders[s].queue, what);
    HeldInSender(what, st.senders, s);
    SumNonNegative(f, InDispatch, st.dispatch);
    SumNonNegative(f, Finished, st.finished);
    SumNonNegative(f, Dropped, st.dropped);
    if Holds(st.finished, what) {
      HeldIsCounted(what, Finished, st.finished);
    }
    if Holds(st.dropped, what) {
      HeldIsCounted(what, Dropped, st.dropped);
    }
  }

  /** Some post of the accepted task, on any of its tries, found its sender finished. */
  ghost predicate LatePosted(b: seq<Pipeline>, steps: seq<Step>, k: nat, what: Task)
    requires |b| == |steps| + 1 && k < |b|
  {
    exists p: nat, t: Task, s: nat | p < k :: LatePostAt(b, steps, p, t, s) && t.(tries := 0) == what
  }

  lemma StrandedIffLatePosted(maxTries: int, b: seq<Pipeline>, steps: seq<Step>, k: nat, what: Task)
    requires IsRun(maxTries, b, steps) && k < |b|
    ensures Stranded(b[k], what) <==> LatePosted(b, steps, k, what)
  {
    if Stranded(b[k], what) {
      var s :| 0 <= s < |b[k].senders| && b[k].senders[s].phase == Done && Holds(b[k].senders[s].queue, what);
      var t :| t in b[k].senders[s].queue && t.(tries := 0) == what;
      StrandedIffLatePost(maxTries, b, steps, k, s, t);
    }
    if LatePosted(b, steps, k, what) {
      var p: nat, t: Task, s: nat :| p < k && LatePostAt(b, steps, p, t, s) && t.(tries := 0) == what;
      LatePostStrandsForGood(maxTries, b, steps, p, k, t, s);
      assert Holds(b[k].senders[s].queue, what);
    }
  }

  /** At rest an accepted task has been sent or dropped exactly when no post of it found its sender finished. */
  lemma DoneIffNoLatePost(maxTries: int, b: seq<Pipeline>, steps: seq<Step>, k: nat, what: Task)
    requires IsRun(maxTries, b, steps) && k < |b| && AtRest(b[k]) && what in b[k].accepted
    ensures Holds(b[k].finished, what) || Holds(b[k].dropped, what) <==> !LatePosted(b, steps, k, what)
  {
    RestingPlaces(maxTries, b, steps, k, what);
    StrandedIffLatePosted(maxTries, b, steps, k, what);
    if Stranded(b[k], what) {
      RunConserves(maxTries, b, steps, k, what);
      var x :| 0 <= x < |b[k].accepted| && b[k].accepted[x] == what;
      StrandedIsNotDone(b[k], what);
    }
  }

  lemma AtRestShape(st: Pipeline)
    requires RoutingInv(st) && AtRest(st)
    ensures st.hand.Empty? && st.dispatch == []
    ensures forall x | x in st.senders :: x.current.None? && (x.queue != [] ==> x.phase == Done)
  {
    forall x | x in st.senders
      ensures x.current.None? && (x.queue != [] ==> x.phase == Done)
    {
      var s :| 0 <= s < |st.senders| && st.senders[s] == x;
      assert !Enabled(st, SenderTake(s)) && OnlyFor(st.senders[s]);
    }
  }

  lemma CountAtRest(st: Pipeline, what: Task)
    requires st.hand.Empty? && st.dispatch == []
    requires forall x | x in st.senders :: x.current.None? && (x.queue != [] ==> x.phase == Done)
    requires Total(Occurs(what), st) > 0
    ensures Holds(st.finished, what) || Holds(st.dropped, what) || Stranded(st, what)
  {
    CountedIsHeld(what, Finished, st.finished);
    CountedIsHeld(what, Dropped, st.dropped);
    if !Holds(st.finished, what) && !Holds(st.dropped, what) {
      var s := CountedInSender(what, st.senders);
      assert st.senders[s] in st.senders;
    }
  }

  ghost predicate Reachable(maxTries: int, st: Pipeline) {
    exists b: seq<Pipeline>, steps: seq<Step> :: IsRun(maxTries, b, steps) && b[|b| - 1] == st
  }

  lemma Reach(maxTries: int, st: Pipeline, step: Step) returns (st': Pipeline)
    requires Reachable(maxTries, st) && Enabled(st, step)
    ensures st' == Apply(maxTries, st, step) && Reachable(maxTries, st')
  {
    st' := Apply(maxTries, st, step);
    var b, steps :| IsRun(maxTries, b, steps) && b[|b| - 1] == st;
    assert IsRun(maxTries, b + [st'], steps + [step]);
  }

  /** Stranding really happens: to the first packet for any destination whose connection fails at once. */
  lemma StrandingHappens(maxTries: int, dest: Hash, message: seq<nat>) returns (st: Pipeline)
    ensures Reachable(maxTries, st) && AtRest(st) && st.finished == [] && st.dropped == []
    ensures st.accepted == [Task(0, dest, message, 0)] && Stranded(st, st.accepted[0])
  {
    var t := Task(0, dest, message, 0);
    var found := FirstPacketFound(maxTries, dest, message);
    var draining := Reach(maxTries, found, Unregister(0));
    assert draining.senders == [Sender(dest, [], None, Draining)];
    var over := Reach(maxTries, draining, DrainEnd(0));
    assert over.senders == [Sender(dest, [], None, Done)];
    st := LatePost(maxTries, over, t);
  }

  lemma LatePost(maxTries: int, over: Pipeline, t: Task) returns (st: Pipeline)
    requires Reachable(maxTries, over) && over.hand == Found(t, 0) && over.dispatch == [] && t.tries == 0
    requires |over.senders| == 1 && over.senders[0].phase == Done
    ensures Reachable(maxTries, st) && AtRest(st) && Stranded(st, t)
    ensures st.accepted == over.accepted && st.finished == over.finished && st.dropped == over.dropped
  {
    st := Reach(maxTries, over, PostToSender);
    assert t in st.senders[0].queue && t.(tries := 0) == t;
  }

  lemma FirstPacketFound(maxTries: int, dest: Hash, message: seq<nat>) returns (st: Pipeline)
    ensures Reachable(maxTries, st)
    ensures var t := Task(0, dest, message, 0);
            st == Pipeline([t], [], Found(t, 0), [Sender(dest, [], None, Running)], map[dest := [0]], [], [])
  {
    var t := Task(0, dest, message, 0);
    assert IsRun(maxTries, [INITIAL], []);
    st := Reach(maxTries, INITIAL, Submit(dest, message));
    st := Reach(maxTries, st, TakeDispatch);
    assert st == Pipeline([t], [], Taken(t), [], map[], [], []);
    st := Reach(maxTries, st, LookUp);
    st := Reach(maxTries, st, CreateSender);
    assert st.senders == [Sender(dest, [], None, Running)];
    assert [0] + [] == [0];
    assert st.registry == map[dest := [0]];
  }

  // ---------- the scheduler object ----------

  class IoScheduler {
    const maxSendTries: int
    var accepted: seq<Task>
    var dispatchQueue: seq<Task>
    var hand: Hand
    var senders: seq<Sender>
    var registry: map<Hash, seq<nat>>
    var finished: seq<Task>
    var dropped: seq<Task>

    ghost function Model(): Pipeline
      reads this
    {
      Pipeline(accepted, dispatchQueue, hand, senders, registry, finished, dropped)
    }

    constructor (maxTries: int)
      ensures maxSendTries == maxTries && Model() == INITIAL
    {
      maxSendTries := maxTries;
      accepted, dispatchQueue, hand, senders := [], [], Empty, [];
      registry, finished, dropped := map[], [], [];
    }

    method SendPacket(dest: Hash, message: seq<nat>)
      modifies this
      ensures Model() == old(Apply(maxSendTries, Model(), Submit(dest, message)))
    {
      var task := Task(|accepted|, dest, message, 0);
      accepted := accepted + [task];
      dispatchQueue := dispatchQueue + [task];
    }

    /** Creates a sender for `dest` and puts it at the front of the destination's list. */
    method RegisterSender(dest: Hash) returns (s: nat)
      modifies this
      ensures s == old(|senders|) && Model() == old(WithSender(Model(), dest))
    {
      s := |senders|;
      senders := senders + [Sender(dest, [], None, Running)];
      if dest in registry {
        registry := registry[dest := [s] + registry[dest]];
      } else {
        assert [s] + [] == [s];
        registry := registry[dest := [s]];
      }
    }

    method UnregisterSender(s: nat)
      requires Enabled(Model(), Unregister(s))
      modifies this
      ensures Model() == old(Apply(maxSendTries, Model(), Unregister(s)))
    {
      var dest := senders[s].dest;
      var list := if dest in registry then registry[dest] else [];
      registry := registry[dest := RemoveFirst(list, s)];
      senders := senders[s := senders[s].(phase := Draining)];
    }

    /** The newest registered sender for `dest`. */
    method FindSender(dest: Hash) returns (found: Option<nat>)
      requires RegistryOk(Model())
      ensures match found
              case Some(s) =>
                && s < |senders| && senders[s].phase == Running && senders[s].dest == dest
                && forall s' | s < s' < |senders| :: !(senders[s'].phase == Running && senders[s'].dest == dest)
              case None =>
                forall s | 0 <= s < |senders| :: !(senders[s].phase == Running && senders[s].dest == dest)
      ensures found == Find(registry, dest)
    {
      LookupIsNewestRunning(Model(), dest);
      if dest in registry && |registry[dest]| > 0 {
        return Some(registry[dest][0]);
      }
      return None;
    }

    /** One round of the dispatch loop is these three steps; other threads may run between them. */
    method TakeNext()
      requires Enabled(Model(), TakeDispatch)
      modifies this
      ensures Model() == old(Apply(maxSendTries, Model(), TakeDispatch))
    {
      hand := Taken(dispatchQueue[0]);
      dispatchQueue := dispatchQueue[1..];
    }

    method FindOrCreate()
      requires RegistryOk(Model()) && (Enabled(Model(), LookUp) || Enabled(Model(), CreateSender))
      modifies this
      ensures Model() == old(Apply(maxSendTries, Model(), if hand.Taken? then LookUp else CreateSender))
    {
      var task := hand.t;
      if hand.Taken? {
        var found := FindSender(task.dest);
        hand := if found.Some? then Found(task, found.value) else NoSender(task);
      } else {
        var s := RegisterSender(task.dest);
        hand := Found(task, s);
      }
    }

    method EnqueueSendTask()
      requires Enabled(Model(), PostToSender)
      modifies this
      ensures Model() == old(Apply(maxSendTries, Model(), PostToSender))
    {
      var x := senders[hand.s];
      senders := senders[hand.s := x.(queue := x.queue + [hand.t])];
      hand := Empty;
    }

    /** The sender thread takes its next task, in its send loop or while draining. */
    method ReceiveTask(s: nat)
      requires Enabled(Model(), SenderTake(s)) || Enabled(Model(), DrainTake(s))
      modifies this
      ensures var step := if old(senders[s].phase) == Running then SenderTake(s) else DrainTake(s);
              Model() == Apply(maxSendTries, old(Model()), step)
    {
      var x := senders[s];
      senders := senders[s := x.(queue := x.queue[1..], current := Some(x.queue[0]))];
    }

    method FinishTask(s: nat)
      requires Enabled(Model(), SenderFinish(s))
      modifies this
      ensures Model() == old(Apply(maxSendTries, Model(), SenderFinish(s)))
    {
      finished := finished + [senders[s].current.value];
      senders := senders[s := senders[s].(current := None)];
    }

    method ResendPacket(s: nat)
      requires Enabled(Model(), ResendCurrent(s))
      modifies this
      ensures Model() == old(Apply(maxSendTries, Model(), ResendCurrent(s)))
    {
      var task := senders[s].current.value;
      task := task.(tries := task.tries + 1);
      if task.tries < maxSendTries {
        dispatchQueue := dispatchQueue + [task];
      } else {
        dropped := dropped + [task];
      }
      senders := senders[s := senders[s].(current := None)];
    }

    /** The drain loop found its queue empty and nothing in hand: the thread is over. */
    method EndDrain(s: nat)
      requires Enabled(Model(), DrainEnd(s))
      modifies this
      ensures Model() == old(Apply(maxSendTries, Model(), DrainEnd(s)))
    {
      senders := senders[s := senders[s].(phase := Done)];
    }
  }
}
