/**
 The distributed lock: hosts on a ring pass one lock around with Transfer packets.

 `NodeGrant` and `NodeAccept` are the per-host step contracts.  The exec operations are methods
 proved against them.  `System` puts n hosts on a network that may delay, duplicate and reorder
 packets (every packet ever sent stays deliverable) but cannot forge them, and the theorems at
 the end are about every run of that system.
 */
module LockRing {

  // ---------- data ----------

  const MAX_I64: int := 0x7FFF_FFFF_FFFF_FFFF
  const MAX_U64: int := 0xFFFF_FFFF_FFFF_FFFF

  datatype EndPoint = EndPoint(id: int)

  type Config = seq<EndPoint>

  datatype Node = Node(held: bool, epoch: nat, myIndex: nat, config: Config)

  datatype Message = Transfer(epoch: int) | Locked(lockedEpoch: int) | Invalid

  datatype Packet = Packet(dst: EndPoint, src: EndPoint, msg: Message)

  datatype Io = Send(s: Packet) | Receive(r: Packet) | TimeoutReceive

  predicate ConfigOk(c: Config) {
    |c| > 0 && forall i | 0 <= i < |c| :: c[i].id >= 0
  }

  predicate NodeOk(s: Node) {
    ConfigOk(s.config) && s.myIndex < |s.config|
  }

  // ---------- per-host step contracts ----------

  predicate NodeGrant(s: Node, s': Node, ios: seq<Io>) {
    && s.myIndex == s'.myIndex
    && if s.held && s.epoch < MAX_U64 then
         && !s'.held
         && |ios| == 1 && ios[0].Send?
         && |s.config| > 0
         && s'.config == s.config
         && s'.epoch == s.epoch
         && ios[0].s.msg == Transfer(s.epoch + 1)
         && ios[0].s.dst == s.config[(s.myIndex + 1) % |s.config|]
       else
         s' == s && |ios| == 0
  }

  /** The packet is a Transfer this host would accept now. */
  predicate Fresh(s: Node, p: Packet) {
    !s.held && p.src in s.config && p.msg.Transfer? && p.msg.epoch > s.epoch
  }

  predicate NodeAccept(s: Node, s': Node, ios: seq<Io>) {
    && s.myIndex == s'.myIndex
    && |ios| >= 1
    && match ios[0]
       case TimeoutReceive => s' == s && |ios| == 1
       case Receive(r) =>
         || (if Fresh(s, r) then
               && s'.held
               && |ios| == 2
               && ios[1].Send?
               && ios[1].s.msg == Locked(s'.epoch)
               && s'.epoch == r.msg.epoch
               && s'.config == s.config
             else
               s' == s && |ios| == 1)
         || (s' == s && |ios| == 1)   // an unparseable packet may be ignored
       case Send(_) => true
  }

  datatype Kind = Grant | Timeout | AcceptTransfer | Ignore

  /** What one exec operation does: its step contract, the shape of its io list, and honest source addresses. */
  predicate HostStep(kind: Kind, s: Node, s': Node, ios: seq<Io>) {
    && (forall io | io in ios && io.Send? :: s.myIndex < |s.config| && io.s.src == s.config[s.myIndex])
    && match kind
       case Grant => s.epoch < MAX_I64 && NodeGrant(s, s', ios)
       case Timeout => ios == [TimeoutReceive] && NodeAccept(s, s', ios)
       case AcceptTransfer => |ios| == 2 && ios[0].Receive? && Fresh(s, ios[0].r) && NodeAccept(s, s', ios)
       case Ignore => |ios| == 1 && ios[0].Receive? && NodeAccept(s, s', ios)
  }

  // ---------- exec operations ----------

  method Contains(c: Config, ep: EndPoint) returns (found: bool)
    requires ConfigOk(c)
    ensures found <==> ep in c
  {
    var i := 0;
    while i < |c|
      invariant i <= |c|
      invariant ep !in c[..i]
    {
      if c[i] == ep {
        return true;
      }
      i := i + 1;
    }
    assert c[..i] == c;
    return false;
  }

  method GrantLock(s: Node) returns (s': Node, ios: seq<Io>)
    requires NodeOk(s) && s.myIndex < MAX_U64 && s.epoch < MAX_I64
    ensures NodeOk(s') && HostStep(Grant, s, s', ios)
    ensures s.held ==>
              var next := s.config[(s.myIndex + 1) % |s.config|];
              ios == [Send(Packet(next, s.config[s.myIndex], Transfer(s.epoch + 1)))]
  {
    ios := [];
    if s.held && s.epoch < MAX_U64 {
      var next := (s.myIndex + 1) % |s.config|;
      var outbound := Packet(s.config[next], s.config[s.myIndex], Transfer(s.epoch + 1));
      ios := ios + [Send(outbound)];
      s' := Node(false, s.epoch, s.myIndex, s.config);
    } else {
      s' := s;
    }
  }

  method AcceptTimeout(s: Node) returns (s': Node, ios: seq<Io>)
    requires NodeOk(s)
    ensures NodeOk(s') && HostStep(Timeout, s, s', ios)
  {
    ios := [];
    ios := ios + [TimeoutReceive];
    s' := s;
  }

  method AcceptLock(s: Node, p: Packet, lockedDst: EndPoint) returns (s': Node, ios: seq<Io>)
    requires NodeOk(s) && Fresh(s, p) && p.msg.epoch <= MAX_I64
    ensures NodeOk(s') && HostStep(AcceptTransfer, s, s', ios)
    ensures ios[0] == Receive(p) && ios[1] == Send(Packet(lockedDst, s.config[s.myIndex], Locked(p.msg.epoch)))
  {
    var newEpoch := p.msg.epoch;
    var locked := Packet(lockedDst, s.config[s.myIndex], Locked(newEpoch));
    ios := [];
    ios := ios + [Receive(Packet(p.dst, p.src, Transfer(newEpoch)))];
    ios := ios + [Send(locked)];
    s' := Node(true, newEpoch, s.myIndex, s.config);
  }

  method AcceptIgnore(s: Node, p: Packet) returns (s': Node, ios: seq<Io>)
    requires NodeOk(s)
    ensures NodeOk(s') && HostStep(Ignore, s, s', ios)
    ensures ios == [Receive(p)]
  {
    ios := [];
    ios := ios + [Receive(p)];
    s' := s;
  }

  // ---------- the system ----------

  /** `sent` is every packet ever sent; delivery may repeat and reorder them. */
  datatype System = System(hosts: seq<Node>, sent: set<Packet>)

  datatype Event = Event(kind: Kind, host: nat, ios: seq<Io>)

  predicate Distinct(c: Config) {
    forall i, j | 0 <= i < j < |c| :: c[i] != c[j]
  }

  predicate Init(st: System, c: Config, start: nat) {
    && ConfigOk(c) && Distinct(c) && start < |c|
    && |st.hosts| == |c| && st.sent == {}
    && forall i | 0 <= i < |c| :: st.hosts[i] == Node(i == start, 0, i, c)
  }

  predicate Next(st: System, st': System, ev: Event) {
    && ev.host < |st.hosts| == |st'.hosts|
    && var s := st.hosts[ev.host];
    && HostStep(ev.kind, s, st'.hosts[ev.host], ev.ios)
    && st'.hosts == st.hosts[ev.host := st'.hosts[ev.host]]
    && (forall io | io in ev.ios && io.Receive? ::
          io.r in st.sent && s.myIndex < |s.config| && io.r.dst == s.config[s.myIndex])
    && st'.sent == st.sent + (set io | io in ev.ios && io.Send? :: io.s)
  }

  predicate IsRun(b: seq<System>, evs: seq<Event>, c: Config, start: nat) {
    && |b| == |evs| + 1
    && Init(b[0], c, start)
    && forall k | 0 <= k < |evs| :: Next(b[k], b[k + 1], evs[k])
  }

  // ---------- the abstract service: an append-only history of holders ----------

  datatype Service = Service(history: seq<EndPoint>)

  predicate ServiceInit(a: Service, c: Config) {
    |a.history| == 1 && a.history[0] in c
  }

  predicate ServiceAppends(a: Service, a': Service, ep: EndPoint) {
    a'.history == a.history + [ep]
  }

  /** The service state a finite event sequence leads to. */
  function ServiceAfter(c: Config, start: nat, evs: seq<Event>): (a: Service)
    requires start < |c|
  {
    if evs == [] then Service([c[start]])
    else
      AfterEvent(c, ServiceAfter(c, start, evs[..|evs| - 1]), evs[|evs| - 1])
  }

  function AfterEvent(c: Config, a: Service, ev: Event): (a': Service) {
    if ev.kind == AcceptTransfer && ev.host < |c| then Service(a.history + [c[ev.host]]) else a
  }

  // ---------- the invariant ----------

  function RingIndex(start: nat, e: nat, n: nat): nat
    requires n > 0
  {
    (start + e) % n
  }

  predicate NoHolder(st: System) {
    forall i | 0 <= i < |st.hosts| :: !st.hosts[i].held
  }

  /** The one Transfer packet that can ever carry epoch e. */
  function TransferFor(c: Config, start: nat, e: nat): (p: Packet)
    requires |c| > 0 && e > 0
  {
    Packet(c[RingIndex(start, e, |c|)], c[RingIndex(start, e - 1, |c|)], Transfer(e))
  }

  predicate HostsMatch(st: System, c: Config) {
    && ConfigOk(c) && Distinct(c) && |st.hosts| == |c|
    && forall i | 0 <= i < |c| :: st.hosts[i].myIndex == i && st.hosts[i].config == c
  }

  predicate TransfersOk(st: System, c: Config, start: nat, last: nat)
    requires HostsMatch(st, c)
  {
    forall p | p in st.sent && p.msg.Transfer? ::
      && 1 <= p.msg.epoch
      && p == TransferFor(c, start, p.msg.epoch)
      && (p.msg.epoch <= last + if NoHolder(st) then 1 else 0)
      && (p.msg.epoch <= last ==> st.hosts[RingIndex(start, p.msg.epoch, |c|)].epoch >= p.msg.epoch)
  }

  predicate LockedOk(st: System, history: seq<EndPoint>) {
    forall p | p in st.sent && p.msg.Locked? ::
      1 <= p.msg.lockedEpoch < |history| && p.src == history[p.msg.lockedEpoch]
  }

  /** `history` lists the holders by epoch; the token is with its last entry or in flight to the next host. */
  predicate Inv(st: System, c: Config, start: nat, history: seq<EndPoint>) {
    && HostsMatch(st, c) && start < |c|
    && |history| > 0
    && (forall e | 0 <= e < |history| :: history[e] == c[RingIndex(start, e, |c|)])
    && var last := |history| - 1;
    && var holder := RingIndex(start, last, |c|);
    && (forall i | 0 <= i < |c| :: st.hosts[i].epoch <= last)
    && (forall i | 0 <= i < |c| && st.hosts[i].held :: i == holder && st.hosts[i].epoch == last)
    && st.hosts[holder].epoch == last
    && TransfersOk(st, c, start, last)
    && LockedOk(st, history)
    && (NoHolder(st) ==> TransferFor(c, start, last + 1) in st.sent)
  }

  // ---------- proofs ----------

  lemma DivModUnique(x: int, n: int, q: int, r: int)
    requires n > 0 && 0 <= r < n && x == n * q + r
    ensures x % n == r
  {
    var d := q - x / n;
    assert n * d == x % n - r;
    if d >= 1 {
      AtLeastOnce(n, d);
    } else if d <= -1 {
      AtLeastOnce(n, -d);
    }
  }

  lemma AtLeastOnce(n: int, d: int)
    requires n > 0 && d >= 1
    ensures n * d >= n
  {
  }

  lemma NextIndex(start: nat, e: nat, n: nat)
    requires n > 0
    ensures (RingIndex(start, e, n) + 1) % n == RingIndex(start, e + 1, n)
  {
    var x := start + e;
    var q, r := x / n, x % n;
    if r + 1 < n {
      DivModUnique(x + 1, n, q, r + 1);
      DivModUnique(r + 1, n, 0, r + 1);
    } else {
      assert n * (q + 1) == n * q + n;
      DivModUnique(x + 1, n, q + 1, 0);
      DivModUnique(r + 1, n, 1, 0);
    }
  }

  lemma InitInv(st: System, c: Config, start: nat)
    requires Init(st, c, start)
    ensures Inv(st, c, start, [c[start]])
  {
    DivModUnique(start, |c|, 0, start);
    assert st.hosts[start].held;
  }

  lemma GrantKeepsInv(st: System, st': System, ev: Event, c: Config, start: nat, history: seq<EndPoint>)
    requires Inv(st, c, start, history) && Next(st, st', ev) && ev.kind == Grant
    ensures Inv(st', c, start, history)
  {
    var s := st.hosts[ev.host];
    var last := |history| - 1;
    if s.held {
      NextIndex(start, last, |c|);
      var p := TransferFor(c, start, last + 1);
      assert ev.ios == [Send(p)] by { assert ev.ios[0] in ev.ios; }
      assert st'.sent == st.sent + {p} by { assert ev.ios[0].s == p; }
      assert NoHolder(st');
      assert !NoHolder(st);
    } else {
      assert st'.hosts == st.hosts;
      assert st'.sent == st.sent;
    }
  }

  /** Only the newest Transfer can be accepted, and only by the host it is addressed to. */
  lemma FreshIsNewest(st: System, c: Config, start: nat, history: seq<EndPoint>, i: nat, p: Packet)
    requires Inv(st, c, start, history) && i < |c|
    requires p in st.sent && p.dst == c[i] && Fresh(st.hosts[i], p)
    ensures NoHolder(st) && p == TransferFor(c, start, |history|) && i == RingIndex(start, |history|, |c|)
  {
    var target := RingIndex(start, p.msg.epoch, |c|);
    assert c[i] == c[target];
    assert i == target;
  }

  lemma AcceptKeepsInv(st: System, st': System, ev: Event, c: Config, start: nat, history: seq<EndPoint>)
    requires Inv(st, c, start, history) && Next(st, st', ev) && ev.kind == AcceptTransfer
    ensures ev.host < |c| && Inv(st', c, start, history + [c[ev.host]])
  {
    var i := ev.host;
    assert ev.ios[0] in ev.ios && ev.ios[1] in ev.ios;
    var p, locked := ev.ios[0].r, ev.ios[1].s;
    FreshIsNewest(st, c, start, history, i, p);
    var history' := history + [c[i]];
    assert st'.hosts[i].held && st'.hosts[i].epoch == |history|;
    assert st'.sent == st.sent + {locked} by { assert ev.ios == [ev.ios[0], ev.ios[1]]; }
    assert LockedOk(st', history');
  }

  lemma QuietKeepsInv(st: System, st': System, ev: Event, c: Config, start: nat, history: seq<EndPoint>)
    requires Inv(st, c, start, history) && Next(st, st', ev) && (ev.kind == Timeout || ev.kind == Ignore)
    ensures st' == st
  {
    assert ev.ios == [ev.ios[0]];
    assert st'.hosts == st.hosts;
    assert st'.sent == st.sent;
  }

  lemma StepKeepsInv(st: System, st': System, ev: Event, c: Config, start: nat, a: Service)
    requires Inv(st, c, start, a.history) && Next(st, st', ev)
    ensures ev.host < |c| && Inv(st', c, start, AfterEvent(c, a, ev).history)
  {
    match ev.kind
    case Grant => GrantKeepsInv(st, st', ev, c, start, a.history);
    case AcceptTransfer => AcceptKeepsInv(st, st', ev, c, start, a.history);
    case _ => QuietKeepsInv(st, st', ev, c, start, a.history);
  }

  lemma {:induction false} RunInv(b: seq<System>, evs: seq<Event>, c: Config, start: nat, k: nat)
    requires IsRun(b, evs, c, start) && k < |b|
    ensures Inv(b[k], c, start, ServiceAfter(c, start, evs[..k]).history)
  {
    if k == 0 {
      InitInv(b[0], c, start);
    } else {
      var j := k - 1;
      RunInv(b, evs, c, start, j);
      assert Next(b[j], b[j + 1], evs[j]);
      StepKeepsInv(b[j], b[k], evs[j], c, start, ServiceAfter(c, start, evs[..j]));
      assert evs[..k][..j] == evs[..j];
    }
  }

  // ---------- theorems about every run ----------

  /** At most one host holds the lock, in every state of every run. */
  lemma MutualExclusion(b: seq<System>, evs: seq<Event>, c: Config, start: nat)
    requires IsRun(b, evs, c, start)
    ensures forall k, i, j | 0 <= k < |b| && 0 <= i < |b[k].hosts| && 0 <= j < |b[k].hosts| ::
              b[k].hosts[i].held && b[k].hosts[j].held ==> i == j
  {
    forall k | 0 <= k < |b|
      ensures forall i, j | 0 <= i < |b[k].hosts| && 0 <= j < |b[k].hosts| ::
                b[k].hosts[i].held && b[k].hosts[j].held ==> i == j
    {
      RunInv(b, evs, c, start, k);
    }
  }

  /** Some host at its own address would accept packet p now. */
  predicate Acceptable(st: System, p: Packet) {
    exists i | 0 <= i < |st.hosts| :: AcceptableAt(st, i, p)
  }

  predicate AcceptableAt(st: System, i: nat, p: Packet)
    requires i < |st.hosts|
  {
    var s := st.hosts[i];
    p in st.sent && s.myIndex < |s.config| && p.dst == s.config[s.myIndex] && Fresh(s, p)
  }

  /** E is the largest epoch any host or Transfer has reached. */
  predicate LatestEpoch(st: System, E: nat) {
    && (forall i | 0 <= i < |st.hosts| :: st.hosts[i].epoch <= E)
    && (forall p | p in st.sent && p.msg.Transfer? :: p.msg.epoch <= E)
    && ((exists i | 0 <= i < |st.hosts| :: st.hosts[i].epoch == E) ||
        (exists p | p in st.sent :: p.msg == Transfer(E)))
  }

  /** The lock is at ring position t: held there, or carried by the one acceptable packet, addressed there. */
  ghost predicate TokenAt(st: System, c: Config, t: nat, E: nat)
    requires t < |c|
  {
    || ( && (forall i | 0 <= i < |st.hosts| :: st.hosts[i].held <==> i == t)
         && (forall p :: !Acceptable(st, p)))
    || ( && NoHolder(st)
         && exists p: Packet :: p.dst == c[t] && p.msg == Transfer(E) && OnlyAcceptable(st, p))
  }

  ghost predicate OnlyAcceptable(st: System, p: Packet) {
    Acceptable(st, p) && forall q :: Acceptable(st, q) ==> q == p
  }

  /** While a host holds the lock no packet is acceptable, and that host is the ring position of the last epoch. */
  lemma TokenHeld(st: System, c: Config, start: nat, history: seq<EndPoint>)
    requires Inv(st, c, start, history) && !NoHolder(st)
    ensures var E := |history| - 1; LatestEpoch(st, E) && TokenAt(st, c, RingIndex(start, E, |c|), E)
    ensures forall p :: !Acceptable(st, p)
  {
    var E := |history| - 1;
    assert st.hosts[RingIndex(start, E, |c|)].epoch == E;
    forall p | Acceptable(st, p)
      ensures false
    {
      var i: nat :| i < |st.hosts| && AcceptableAt(st, i, p);
      FreshIsNewest(st, c, start, history, i, p);
    }
  }

  /** While nobody holds it, exactly the newest Transfer is acceptable, at the next ring position. */
  lemma TokenInFlight(st: System, c: Config, start: nat, history: seq<EndPoint>)
    requires Inv(st, c, start, history) && NoHolder(st)
    ensures var p := TransferFor(c, start, |history|); LatestEpoch(st, |history|) && OnlyAcceptable(st, p)
    ensures TokenAt(st, c, RingIndex(start, |history|, |c|), |history|)
  {
    var p, i := TransferFor(c, start, |history|), RingIndex(start, |history|, |c|);
    assert p in st.sent && AcceptableAt(st, i, p);
    forall q | Acceptable(st, q)
      ensures q == p
    {
      var j: nat :| j < |st.hosts| && AcceptableAt(st, j, q);
      FreshIsNewest(st, c, start, history, j, q);
    }
  }

  lemma LatestEpochIsUnique(st: System, E: nat, F: nat)
    requires LatestEpoch(st, E) && LatestEpoch(st, F)
    ensures E == F
  {
  }

  ghost predicate OlderIsStale(st: System, E: nat) {
    forall p | p in st.sent && p.msg.Transfer? && p.msg.epoch < E :: !Acceptable(st, p)
  }

  lemma TokenOf(st: System, c: Config, start: nat, history: seq<EndPoint>) returns (E: nat)
    requires Inv(st, c, start, history)
    ensures LatestEpoch(st, E) && TokenAt(st, c, RingIndex(start, E, |c|), E) && OlderIsStale(st, E)
  {
    if NoHolder(st) {
      E := |history|;
      TokenInFlight(st, c, start, history);
    } else {
      E := |history| - 1;
      TokenHeld(st, c, start, history);
    }
  }

  /**
   Every state of every run has one latest epoch E.  Its one token is at ring position
   (start + E) mod n, and every older Transfer is stale.
   */
  lemma AlwaysOneToken(b: seq<System>, evs: seq<Event>, c: Config, start: nat, k: nat) returns (E: nat)
    requires IsRun(b, evs, c, start) && k < |b|
    ensures LatestEpoch(b[k], E) && forall F :: LatestEpoch(b[k], F) ==> F == E
    ensures |c| > 0 && TokenAt(b[k], c, (start + E) % |c|, E) && OlderIsStale(b[k], E)
  {
    RunInv(b, evs, c, start, k);
    E := TokenOf(b[k], c, start, ServiceAfter(c, start, evs[..k]).history);
    forall F | LatestEpoch(b[k], F)
      ensures F == E
    {
      LatestEpochIsUnique(b[k], E, F);
    }
  }

  /** The same for an epoch known to be the latest. */
  lemma OneTokenRoundTheRing(b: seq<System>, evs: seq<Event>, c: Config, start: nat, k: nat, E: nat)
    requires IsRun(b, evs, c, start) && k < |b| && LatestEpoch(b[k], E)
    ensures |c| > 0 && TokenAt(b[k], c, (start + E) % |c|, E) && OlderIsStale(b[k], E)
  {
    var F := AlwaysOneToken(b, evs, c, start, k);
  }

  /** The abstract behaviour of a run, one service state per system state. */
  function Abstraction(evs: seq<Event>, c: Config, start: nat): (hs: seq<Service>)
    requires start < |c|
    ensures |hs| == |evs| + 1
  {
    seq(|evs| + 1, k requires 0 <= k <= |evs| => ServiceAfter(c, start, evs[..k]))
  }

  /** How a system state shows its service state: the holder and every Locked packet agree with the history. */
  predicate Shows(st: System, c: Config, start: nat, a: Service) {
    && (forall i | 0 <= i < |st.hosts| && st.hosts[i].held ::
          i < |c| && st.hosts[i].epoch == |a.history| - 1 && a.history[|a.history| - 1] == c[i])
    && (forall e | 0 <= e < |a.history| :: |c| > 0 && a.history[e] == c[(start + e) % |c|])
    && LockedOk(st, a.history)
  }

  lemma InvShows(st: System, c: Config, start: nat, a: Service)
    requires Inv(st, c, start, a.history)
    ensures Shows(st, c, start, a)
  {
    forall e | 0 <= e < |a.history|
      ensures a.history[e] == c[(start + e) % |c|]
    {
      assert a.history[e] == c[RingIndex(start, e, |c|)];
    }
  }

  lemma RunShows(b: seq<System>, evs: seq<Event>, c: Config, start: nat, k: nat)
    requires IsRun(b, evs, c, start) && k < |b|
    ensures Shows(b[k], c, start, Abstraction(evs, c, start)[k])
  {
    RunInv(b, evs, c, start, k);
    InvShows(b[k], c, start, ServiceAfter(c, start, evs[..k]));
  }

  lemma RunAppends(b: seq<System>, evs: seq<Event>, c: Config, start: nat, k: nat)
    requires IsRun(b, evs, c, start) && k < |evs|
    ensures var hs := Abstraction(evs, c, start);
            evs[k].host < |c| && hs[k + 1] == AfterEvent(c, hs[k], evs[k])
  {
    RunInv(b, evs, c, start, k);
    assert Next(b[k], b[k + 1], evs[k]);
    assert evs[..k + 1][..k] == evs[..k];
  }

  /** Every run refines the history service: accepting appends the accepting host, every other step stutters. */
  lemma RefinesService(b: seq<System>, evs: seq<Event>, c: Config, start: nat)
    requires IsRun(b, evs, c, start)
    ensures var hs := Abstraction(evs, c, start);
            && ServiceInit(hs[0], c)
            && (forall k | 0 <= k < |evs| ::
                  if evs[k].kind == AcceptTransfer
                  then evs[k].host < |c| && ServiceAppends(hs[k], hs[k + 1], c[evs[k].host])
                  else hs[k + 1] == hs[k])
            && (forall k | 0 <= k < |b| :: Shows(b[k], c, start, hs[k]))
  {
    var hs := Abstraction(evs, c, start);
    assert evs[..0] == [];
    forall k | 0 <= k < |b|
      ensures Shows(b[k], c, start, hs[k])
    {
      RunShows(b, evs, c, start, k);
    }
    forall k | 0 <= k < |evs|
      ensures evs[k].host < |c| && hs[k + 1] == AfterEvent(c, hs[k], evs[k])
    {
      RunAppends(b, evs, c, start, k);
    }
  }

  /** All Locked packets of one epoch, anywhere in a run, come from one host. */
  lemma LockedEpochHasOneSource(
    b: seq<System>, evs: seq<Event>, c: Config, start: nat, k: nat, p: Packet, k': nat, p': Packet)
    requires IsRun(b, evs, c, start) && k < |b| && k' < |b|
    requires p in b[k].sent && p' in b[k'].sent && p.msg.Locked? && p'.msg == p.msg
    ensures p.src == p'.src
  {
    RunInv(b, evs, c, start, k);
    RunInv(b, evs, c, start, k');
  }
}
