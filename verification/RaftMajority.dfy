/** Which log index more than half of the voters have reached. */
module RaftMajority {
  function CountAtLeast(matched: seq<nat>, k: nat): nat {
    if matched == [] then 0
    else (if matched[0] >= k then 1 else 0) + CountAtLeast(matched[1..], k)
  }

  predicate Agreed(matched: seq<nat>, k: nat) {
    2 * CountAtLeast(matched, k) > |matched|
  }

  /** The largest agreed index in 1..top, or 0. */
  function MaxAgreed(matched: seq<nat>, top: nat): (k: nat)
    ensures k <= top && (k > 0 ==> Agreed(matched, k))
    ensures forall j | k < j <= top :: !Agreed(matched, j)
  {
    if top == 0 then 0
    else if Agreed(matched, top) then top
    else MaxAgreed(matched, top - 1)
  }

  lemma {:induction false} CountSnoc(xs: seq<nat>, x: nat, k: nat)
    ensures CountAtLeast(xs + [x], k) == CountAtLeast(xs, k) + if x >= k then 1 else 0
  {
    if xs == [] {
      assert xs + [x] == [x];
    } else {
      assert (xs + [x])[1..] == xs[1..] + [x];
      CountSnoc(xs[1..], x, k);
    }
  }

  /** The slots that have reached index k. */
  function Reached(matched: seq<nat>, k: nat): (slots: set<nat>)
    ensures forall j :: j in slots <==> 0 <= j < |matched| && matched[j] >= k
  {
    set j | 0 <= j < |matched| && matched[j] >= k
  }

  lemma ReachedSnoc(xs: seq<nat>, x: nat, k: nat)
    ensures Reached(xs + [x], k) == Reached(xs, k) + if x >= k then {|xs|} else {}
  {
  }

  lemma {:induction false} CountIsCardinality(matched: seq<nat>, k: nat)
    ensures CountAtLeast(matched, k) == |Reached(matched, k)|
  {
    if matched == [] {
      assert Reached(matched, k) == {};
    } else {
      var last := |matched| - 1;
      var rest, x := matched[..last], matched[last];
      assert matched == rest + [x];
      CountSnoc(rest, x, k);
      CountIsCardinality(rest, k);
      ReachedSnoc(rest, x, k);
      assert last !in Reached(rest, k);
    }
  }

  /** An index is agreed exactly when more than half of the slots have reached it. */
  lemma AgreedIsMajority(matched: seq<nat>, k: nat)
    ensures Agreed(matched, k) <==> 2 * |Reached(matched, k)| > |matched|
  {
    CountIsCardinality(matched, k);
  }
}
