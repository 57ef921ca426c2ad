/**
 The acceptor's checkpoint vector: heartbeats raise the sender's slot, and the vector is the join
 of everything heard.  A replica is looked up by its first place in the configuration.
 */
module Checkpoints {
  import opened Common

  datatype Acceptor = Acceptor(ids: seq<nat>, maxBal: (nat, nat), last: seq<nat>)

  /** A heartbeat packet: who sent it and how far it has checkpointed. */
  datatype Heartbeat = Heartbeat(src: nat, opn: nat)

  // ---------- what a heartbeat does ----------

  /** The first place of an identifier, or the length where there is none. */
  function FirstIndex(ids: seq<nat>, id: nat): (i: nat)
    ensures i <= |ids| && (i < |ids| ==> ids[i] == id) && forall j | 0 <= j < i :: ids[j] != id
  {
    if ids == [] || ids[0] == id then 0 else 1 + FirstIndex(ids[1..], id)
  }

  function Raise(last: seq<nat>, i: nat, opn: nat): seq<nat> {
    if i < |last| && opn > last[i] then last[i := opn] else last
  }

  function Hear(ids: seq<nat>, last: seq<nat>, hb: Heartbeat): seq<nat> {
    if hb.src in ids then Raise(last, FirstIndex(ids, hb.src), hb.opn) else last
  }

  // ---------- the handler ----------

  method Contains(ids: seq<nat>, id: nat) returns (found: bool)
    ensures found <==> id in ids
  {
    var i := 0;
    while i < |ids|
      invariant i <= |ids| && id !in ids[..i]
    {
      if ids[i] == id {
        return true;
      }
      i := i + 1;
    }
    return false;
  }

  method FindIndex(ids: seq<nat>, id: nat) returns (index: nat)
    requires id in ids
    ensures index < |ids| && index == FirstIndex(ids, id)
  {
    index := 0;
    while ids[index] != id
      invariant index < |ids| && id !in ids[..index]
      decreases |ids| - index
    {
      index := index + 1;
      if index == |ids| {
        assert false;
      }
    }
  }

  /** Rebuilds the vector element by element with one slot replaced. */
  method Update(last: seq<nat>, index: nat, opn: nat) returns (r: seq<nat>)
    requires index < |last|
    ensures r == last[index := opn]
  {
    r := [];
    var i := 0;
    while i < |last|
      invariant i <= |last| && r == last[index := opn][..i]
    {
      r := r + [if i == index then opn else last[i]];
      i := i + 1;
    }
  }

  method ProcessHeartbeat(s: Acceptor, hb: Heartbeat) returns (r: Acceptor)
    ensures r == s.(last := Hear(s.ids, s.last, hb))
  {
    var known := Contains(s.ids, hb.src);
    if known {
      var sender := FindIndex(s.ids, hb.src);
      if sender < |s.last| && hb.opn > s.last[sender] {
        var last := Update(s.last, sender, hb.opn);
        return Acceptor(s.ids, s.maxBal, last);
      }
    }
    return s;
  }

  // ---------- the specification's free choice of index ----------

  /** The specified outcome when the sender's index is taken to be `index`. */
  predicate SpecifiedAt(s: Acceptor, s': Acceptor, hb: Heartbeat, index: nat) {
    if index < |s.last| && hb.opn > s.last[index]
    then s'.last == s.last[index := hb.opn] && s'.ids == s.ids && s'.maxBal == s.maxBal
    else s' == s
  }

  /** The handler's result is specified for every index the specification may choose. */
  ghost predicate MeetsEveryChoice(ids: seq<nat>) {
    forall s: Acceptor, hb: Heartbeat, index: nat
      | s.ids == ids && |s.last| == |ids| && index < |ids| && ids[index] == hb.src ::
      SpecifiedAt(s, s.(last := Hear(ids, s.last, hb)), hb, index)
  }

  predicate Unique(ids: seq<nat>) {
    forall i, j | 0 <= i < j < |ids| :: ids[i] != ids[j]
  }

  lemma RepeatedIdIsAmbiguous(ids: seq<nat>, i: nat, j: nat)
    requires i < j < |ids| && ids[i] == ids[j]
    ensures !MeetsEveryChoice(ids)
  {
    var hb := Heartbeat(ids[j], 1);
    var s := Acceptor(ids, (0, 0), seq(|ids|, _ => 0));
    var first := FirstIndex(ids, ids[j]);
    assert first <= i;
    var r := s.(last := Hear(ids, s.last, hb));
    assert r.last[j] == 0;
    assert !SpecifiedAt(s, r, hb, j);
  }

  /** The handler meets its specification, whichever index is chosen, exactly when replica ids are unique. */
  lemma SpecificationIffUnique(ids: seq<nat>)
    ensures MeetsEveryChoice(ids) <==> Unique(ids)
  {
    if !Unique(ids) {
      var i, j :| 0 <= i < j < |ids| && ids[i] == ids[j];
      RepeatedIdIsAmbiguous(ids, i, j);
    }
  }

  // ---------- whole runs ----------

  function After(ids: seq<nat>, last: seq<nat>, hbs: seq<Heartbeat>): (r: seq<nat>)
    ensures |r| == |last|
    decreases hbs
  {
    if hbs == [] then last else After(ids, Hear(ids, last, hbs[0]), hbs[1..])
  }

  /** The maximum of a starting value and every checkpoint received from one replica. */
  function Join(start: nat, hbs: seq<Heartbeat>, id: nat): nat
    decreases hbs
  {
    if hbs == [] then start
    else Join(if hbs[0].src == id then Max(start, hbs[0].opn) else start, hbs[1..], id)
  }

  /** Join is the least bound of the start and of that replica's checkpoints, and one of them. */
  lemma {:induction false} JoinIsMaximum(start: nat, hbs: seq<Heartbeat>, id: nat)
    ensures var m := Join(start, hbs, id);
            && start <= m && (forall h | h in hbs && h.src == id :: h.opn <= m)
            && (m == start || Heartbeat(id, m) in hbs)
    decreases hbs
  {
    if hbs != [] {
      var next := if hbs[0].src == id then Max(start, hbs[0].opn) else start;
      JoinIsMaximum(next, hbs[1..], id);
    }
  }

  /** Slot i belongs to the replica that is found there. */
  predicate Owned(ids: seq<nat>, i: nat) {
    i < |ids| && FirstIndex(ids, ids[i]) == i
  }

  /** After any heartbeats an owned slot is its replica's join, and any other slot is untouched. */
  lemma {:induction false} SlotIsJoin(ids: seq<nat>, last: seq<nat>, hbs: seq<Heartbeat>, i: nat)
    requires i < |last|
    ensures After(ids, last, hbs)[i] == if Owned(ids, i) then Join(last[i], hbs, ids[i]) else last[i]
    decreases hbs
  {
    if hbs != [] {
      SlotIsJoin(ids, Hear(ids, last, hbs[0]), hbs[1..], i);
    }
  }

  lemma SameSetSameJoin(start: nat, xs: seq<Heartbeat>, ys: seq<Heartbeat>, id: nat)
    requires forall h :: h in xs <==> h in ys
    ensures Join(start, xs, id) == Join(start, ys, id)
  {
    JoinIsMaximum(start, xs, id);
    JoinIsMaximum(start, ys, id);
  }

  /** Neither the order nor the repetition of heartbeats matters. */
  lemma OrderIrrelevant(ids: seq<nat>, last: seq<nat>, xs: seq<Heartbeat>, ys: seq<Heartbeat>)
    requires forall h :: h in xs <==> h in ys
    ensures After(ids, last, xs) == After(ids, last, ys)
  {
    forall i | 0 <= i < |last|
      ensures After(ids, last, xs)[i] == After(ids, last, ys)[i]
    {
      SlotIsJoin(ids, last, xs, i);
      SlotIsJoin(ids, last, ys, i);
      if Owned(ids, i) {
        SameSetSameJoin(last[i], xs, ys, ids[i]);
      }
    }
  }

  /** Every replica's slot is its join after every run of heartbeats. */
  ghost predicate EverySlotJoins(ids: seq<nat>) {
    forall last: seq<nat>, hbs, i: nat | |last| == |ids| && i < |ids| ::
      After(ids, last, hbs)[i] == Join(last[i], hbs, ids[i])
  }

  /** The vector is the join for all replicas in all runs exactly when replica ids are unique. */
  lemma JoinIffUnique(ids: seq<nat>)
    ensures EverySlotJoins(ids) <==> Unique(ids)
  {
    if Unique(ids) {
      forall last: seq<nat>, hbs, i: nat | |last| == |ids| && i < |ids|
        ensures After(ids, last, hbs)[i] == Join(last[i], hbs, ids[i])
      {
        SlotIsJoin(ids, last, hbs, i);
      }
    } else {
      var i, j :| 0 <= i < j < |ids| && ids[i] == ids[j];
      var last: seq<nat> := seq(|ids|, _ => 0);
      var hbs := [Heartbeat(ids[j], 1)];
      SlotIsJoin(ids, last, hbs, j);
      JoinIsMaximum(0, hbs, ids[j]);
      assert hbs[0] in hbs;
      assert After(ids, last, hbs)[j] != Join(last[j], hbs, ids[j]);
    }
  }
}
