/**
 Batch insertion: edits that share an offset are reduced to the first, and the rest are inserted
 from the last offset to the first.  `Weave` says what the outcome must be without any order of insertion.
 */
module BatchEdits {

  datatype Edit = Edit(off: nat, ann: string, site: string)

  // ---------- the outcome ----------

  /** What is inserted at offset k: the annotation of the first edit listed for it, after a space. */
  function PieceAt(edits: seq<Edit>, k: nat): string {
    if edits == [] then ""
    else if edits[0].off == k then " " + edits[0].ann
    else PieceAt(edits[1..], k)
  }

  function CharAt(text: string, k: nat): string {
    if k < |text| then [text[k]] else ""
  }

  /** The text from offset k on, each piece before the character at its offset. */
  function Weave(text: string, edits: seq<Edit>, k: nat): string
    requires k <= |text| + 1
    decreases |text| + 1 - k
  {
    if k > |text| then "" else PieceAt(edits, k) + (CharAt(text, k) + Weave(text, edits, k + 1))
  }

  /** How much longer the text gets before offset k: where the piece of k begins. */
  function Shifted(edits: seq<Edit>, k: nat): nat {
    if k == 0 then 0 else Shifted(edits, k - 1) + |PieceAt(edits, k - 1)| + 1
  }

  /** The woven text with its insertions deleted. */
  function Unweave(woven: string, edits: seq<Edit>, k: nat, n: nat): string
    decreases n - k
  {
    if k >= n || |woven| <= |PieceAt(edits, k)| then ""
    else
      var rest := woven[|PieceAt(edits, k)|..];
      [rest[0]] + Unweave(rest[1..], edits, k + 1, n)
  }

  // ---------- planning ----------

  /** The place an edit takes among edits of falling offset: before those that share its offset. */
  function Place(e: Edit, es: seq<Edit>): seq<Edit> {
    if es == [] || e.off >= es[0].off then [e] + es else [es[0]] + Place(e, es[1..])
  }

  /** The stable sort by falling offset. */
  function Sorted(edits: seq<Edit>): seq<Edit> {
    if edits == [] then [] else Place(edits[0], Sorted(edits[1..]))
  }

  predicate Falling(es: seq<Edit>) {
    forall i, j | 0 <= i < j < |es| :: es[i].off >= es[j].off
  }

  predicate StrictlyFalling(es: seq<Edit>) {
    forall i, j | 0 <= i < j < |es| :: es[i].off > es[j].off
  }

  lemma {:induction false} PlaceShuffles(e: Edit, es: seq<Edit>)
    ensures multiset(Place(e, es)) == multiset{e} + multiset(es)
    decreases es
  {
    if es != [] {
      assert es == [es[0]] + es[1..];
      if e.off < es[0].off {
        PlaceShuffles(e, es[1..]);
      }
    }
  }

  lemma PlacedFrom(e: Edit, es: seq<Edit>, x: Edit)
    requires x in Place(e, es)
    ensures x == e || x in es
  {
    PlaceShuffles(e, es);
    assert x in multiset(Place(e, es));
  }

  lemma {:induction false} PlaceFalls(e: Edit, es: seq<Edit>)
    requires Falling(es)
    ensures Falling(Place(e, es))
    decreases es
  {
    if es != [] && e.off < es[0].off {
      PlaceFalls(e, es[1..]);
      forall x | x in Place(e, es[1..])
        ensures x.off <= es[0].off
      {
        PlacedFrom(e, es[1..], x);
      }
    }
  }

  lemma {:induction false} PlacePieces(e: Edit, es: seq<Edit>, k: nat)
    ensures PieceAt(Place(e, es), k) == if e.off == k then " " + e.ann else PieceAt(es, k)
    decreases es
  {
    if es != [] && e.off < es[0].off {
      PlacePieces(e, es[1..], k);
      assert Place(e, es)[1..] == Place(e, es[1..]);
    } else {
      assert Place(e, es)[1..] == es;
    }
  }

  /** Sorting loses nothing, and of edits that share an offset the first stays first. */
  lemma {:induction false} SortedKeepsFirst(edits: seq<Edit>)
    ensures Falling(Sorted(edits)) && multiset(Sorted(edits)) == multiset(edits)
    ensures forall k :: PieceAt(Sorted(edits), k) == PieceAt(edits, k)
    decreases edits
  {
    if edits != [] {
      assert edits == [edits[0]] + edits[1..];
      SortedKeepsFirst(edits[1..]);
      PlaceShuffles(edits[0], Sorted(edits[1..]));
      PlaceFalls(edits[0], Sorted(edits[1..]));
      forall k
        ensures PieceAt(Sorted(edits), k) == PieceAt(edits, k)
      {
        PlacePieces(edits[0], Sorted(edits[1..]), k);
      }
    }
  }

  lemma {:induction false} PieceOfAppend(es: seq<Edit>, e: Edit, k: nat)
    ensures PieceAt(es + [e], k) ==
            if PieceAt(es, k) != "" then PieceAt(es, k) else if e.off == k then " " + e.ann else ""
    decreases es
  {
    if es != [] {
      assert (es + [e])[1..] == es[1..] + [e];
      PieceOfAppend(es[1..], e, k);
    }
  }

  lemma {:induction false} HasPiece(es: seq<Edit>, k: nat)
    ensures PieceAt(es, k) != "" <==> exists e :: e in es && e.off == k
    decreases es
  {
    if es != [] {
      assert es == [es[0]] + es[1..];
      HasPiece(es[1..], k);
    }
  }

  /** The edits seen so far, split into the first of every offset and the rest. */
  ghost predicate Split(edits: seq<Edit>, unique: seq<Edit>, skipped: seq<Edit>) {
    && (forall k :: PieceAt(unique, k) == PieceAt(edits, k))
    && multiset(unique) + multiset(skipped) == multiset(edits)
  }

  lemma SplitKeep(edits: seq<Edit>, unique: seq<Edit>, skipped: seq<Edit>, e: Edit)
    requires Split(edits, unique, skipped)
    ensures Split(edits + [e], unique + [e], skipped)
  {
    forall k
      ensures PieceAt(unique + [e], k) == PieceAt(edits + [e], k)
    {
      PieceOfAppend(edits, e, k);
      PieceOfAppend(unique, e, k);
    }
  }

  lemma SplitSkip(edits: seq<Edit>, unique: seq<Edit>, skipped: seq<Edit>, e: Edit)
    requires Split(edits, unique, skipped) && exists u :: u in unique && u.off == e.off
    ensures Split(edits + [e], unique, skipped + [e])
  {
    HasPiece(unique, e.off);
    forall k
      ensures PieceAt(unique, k) == PieceAt(edits + [e], k)
    {
      PieceOfAppend(edits, e, k);
    }
  }

  /** The offsets of the kept edits are the seen ones; they fall, and none is below an edit still to come. */
  ghost predicate Tracks(unique: seq<Edit>, seen: set<nat>, rest: seq<Edit>) {
    && (forall o :: o in seen <==> exists u :: u in unique && u.off == o)
    && StrictlyFalling(unique)
    && forall u, e | u in unique && e in rest :: u.off >= e.off
  }

  lemma TracksKeep(unique: seq<Edit>, seen: set<nat>, rest: seq<Edit>)
    requires rest != [] && Falling(rest) && Tracks(unique, seen, rest) && rest[0].off !in seen
    ensures Tracks(unique + [rest[0]], seen + {rest[0].off}, rest[1..])
  {
    var e, seen', unique' := rest[0], seen + {rest[0].off}, unique + [rest[0]];
    forall o
      ensures o in seen' <==> exists u :: u in unique' && u.off == o
    {
      assert e in unique';
      if o in seen {
        var u :| u in unique && u.off == o;
        assert u in unique';
      }
    }
    forall k | 0 <= k < |unique|
      ensures unique[k].off > e.off
    {
      assert unique[k] in unique;
    }
  }

  lemma TracksSkip(unique: seq<Edit>, seen: set<nat>, rest: seq<Edit>)
    requires rest != [] && Tracks(unique, seen, rest)
    ensures Tracks(unique, seen, rest[1..])
  {
  }

  lemma NextOf(order: seq<Edit>, handled: seq<Edit>, rest: seq<Edit>)
    requires order == handled + rest && rest != [] && Falling(rest)
    ensures order == (handled + [rest[0]]) + rest[1..] && Falling(rest[1..])
  {
  }

  /** Keeps the first edit of every offset, in falling order, and returns the others as skipped. */
  method PlanEdits(edits: seq<Edit>) returns (unique: seq<Edit>, skipped: seq<Edit>)
    ensures StrictlyFalling(unique)
    ensures forall k :: PieceAt(unique, k) == PieceAt(edits, k)
    ensures multiset(unique) + multiset(skipped) == multiset(edits)
  {
    unique, skipped := [], [];
    var seen: set<nat> := {};
    var order := Sorted(edits);
    SortedKeepsFirst(edits);
    var i := 0;
    ghost var handled, rest := [], order;
    while i < |order|
      invariant i == |handled| && order == handled + rest
      invariant Falling(rest) && Tracks(unique, seen, rest)
      invariant Split(handled, unique, skipped)
    {
      var e := order[i];
      assert e == rest[0];
      if e.off in seen {
        SplitSkip(handled, unique, skipped, e);
        TracksSkip(unique, seen, rest);
        skipped := skipped + [e];
      } else {
        SplitKeep(handled, unique, skipped, e);
        TracksKeep(unique, seen, rest);
        seen := seen + {e.off};
        unique := unique + [e];
      }
      NextOf(order, handled, rest);
      handled, rest := handled + [e], rest[1..];
      i := i + 1;
    }
    assert handled == order;
  }

  // ---------- applying ----------

  function Clip(text: string, k: nat): (r: nat)
    ensures r <= |text|
  {
    if k < |text| then k else |text|
  }

  lemma CopyStep(text: string, a: nat, b: nat)
    requires a < b <= |text| + 1
    ensures text[Clip(text, a)..Clip(text, b)] == CharAt(text, a) + text[Clip(text, a + 1)..Clip(text, b)]
  {
  }

  lemma Associates(a: string, b: string, c: string)
    ensures (a + b) + c == a + (b + c)
  {
  }

  /** Between two offsets without edits the text is copied. */
  lemma {:induction false} NoPieces(text: string, edits: seq<Edit>, a: nat, b: nat)
    requires a <= b <= |text| + 1 && forall k | a <= k < b :: PieceAt(edits, k) == ""
    ensures Weave(text, edits, a) == text[Clip(text, a)..Clip(text, b)] + Weave(text, edits, b)
    decreases b - a
  {
    if a < b {
      NoPieces(text, edits, a + 1, b);
      CopyStep(text, a, b);
      Associates(CharAt(text, a), text[Clip(text, a + 1)..Clip(text, b)], Weave(text, edits, b));
    }
  }

  lemma {:induction false} SamePieces(text: string, xs: seq<Edit>, ys: seq<Edit>, k: nat)
    requires k <= |text| + 1 && forall j | k <= j <= |text| :: PieceAt(xs, j) == PieceAt(ys, j)
    ensures Weave(text, xs, k) == Weave(text, ys, k)
    decreases |text| + 1 - k
  {
    if k <= |text| {
      SamePieces(text, xs, ys, k + 1);
    }
  }

  lemma NoEdits(text: string)
    ensures Weave(text, [], 0) == text
  {
    NoPieces(text, [], 0, |text| + 1);
  }

  /** An edit below all those woven so far is woven in by inserting it at its original offset. */
  lemma InsertBelow(text: string, done: seq<Edit>, e: Edit)
    requires e.off <= |text| && forall d | d in done :: d.off > e.off
    ensures var w := Weave(text, done, 0);
            e.off <= |w| && Weave(text, done + [e], 0) == w[..e.off] + (" " + e.ann) + w[e.off..]
  {
    var o := e.off;
    forall k
      ensures k <= o ==> PieceAt(done, k) == ""
      ensures PieceAt(done + [e], k) == if k == o then " " + e.ann else PieceAt(done, k)
    {
      HasPiece(done, k);
      PieceOfAppend(done, e, k);
    }
    NoPieces(text, done, 0, o);
    NoPieces(text, done + [e], 0, o);
    SamePieces(text, done, done + [e], o + 1);
    assert Weave(text, done, o) == CharAt(text, o) + Weave(text, done, o + 1);
    assert Weave(text, done + [e], o) == (" " + e.ann) + Weave(text, done, o);
  }

  /** Inserts from the last offset to the first. */
  method ApplyPlan(original: string, plan: seq<Edit>) returns (text: string)
    requires StrictlyFalling(plan) && forall e | e in plan :: e.off <= |original|
    ensures text == Weave(original, plan, 0)
  {
    text := original;
    NoEdits(original);
    var i := 0;
    while i < |plan|
      invariant i <= |plan| && text == Weave(original, plan[..i], 0)
    {
      var e := plan[i];
      InsertBelow(original, plan[..i], e);
      assert plan[..i + 1] == plan[..i] + [e];
      text := text[..e.off] + (" " + e.ann) + text[e.off..];
      i := i + 1;
    }
    assert plan[..i] == plan;
  }

  /** Planning and applying give the text with the first annotation of every offset at that offset. */
  method Annotate(text: string, edits: seq<Edit>) returns (r: string)
    requires forall e | e in edits :: e.off <= |text|
    ensures r == Weave(text, edits, 0)
  {
    var unique, skipped := PlanEdits(edits);
    forall e | e in unique
      ensures e.off <= |text|
    {
      assert e in multiset(edits);
    }
    r := ApplyPlan(text, unique);
    SamePieces(text, unique, edits, 0);
  }

  // ---------- where everything ends up ----------

  lemma Regroup(a: string, b: string, c: string, d: string)
    ensures a + (b + (c + d)) == (a + (b + c)) + d
  {
  }

  /** The woven text between offsets i and j. */
  function Between(text: string, edits: seq<Edit>, i: nat, j: nat): string
    requires i <= j <= |text|
    decreases j - i
  {
    if i == j then "" else PieceAt(edits, i) + (CharAt(text, i) + Between(text, edits, i + 1, j))
  }

  lemma {:induction false} BetweenLength(text: string, edits: seq<Edit>, i: nat, j: nat)
    requires i <= j <= |text|
    ensures |Between(text, edits, i, j)| == Shifted(edits, j) - Shifted(edits, i)
    decreases j - i
  {
    if i < j {
      BetweenLength(text, edits, i + 1, j);
    }
  }

  lemma {:induction false} WovenBetween(text: string, edits: seq<Edit>, i: nat, j: nat)
    requires i <= j <= |text|
    ensures Weave(text, edits, i) == Between(text, edits, i, j) + Weave(text, edits, j)
    decreases j - i
  {
    if i < j {
      WovenBetween(text, edits, i + 1, j);
      Regroup(PieceAt(edits, i), CharAt(text, i), Between(text, edits, i + 1, j), Weave(text, edits, j));
    }
  }

  /** In the text woven from i on, the character of j is at its shifted position, right after the annotation of j. */
  lemma CharsKept(text: string, edits: seq<Edit>, i: nat, j: nat)
    requires i <= j < |text|
    ensures var start := Shifted(edits, j) - Shifted(edits, i);
            0 <= start && FoundAt(Weave(text, edits, i), start, PieceAt(edits, j), text[j])
  {
    BetweenLength(text, edits, i, j);
    WovenBetween(text, edits, i, j);
    FoundAfter(text, edits, j, Between(text, edits, i, j));
  }

  predicate FoundAt(w: string, start: nat, piece: string, c: char) {
    start + |piece| < |w| && w[start..start + |piece|] == piece && w[start + |piece|] == c
  }

  lemma FoundAfter(text: string, edits: seq<Edit>, j: nat, before: string)
    requires j < |text|
    ensures FoundAt(before + Weave(text, edits, j), |before|, PieceAt(edits, j), text[j])
  {
    Located(before, PieceAt(edits, j), text[j], Weave(text, edits, j + 1));
  }

  lemma Located(before: string, piece: string, c: char, rest: string)
    ensures FoundAt(before + (piece + ([c] + rest)), |before|, piece, c)
  {
  }

  lemma {:induction false} UnweaveFrom(text: string, edits: seq<Edit>, k: nat)
    requires k <= |text|
    ensures Unweave(Weave(text, edits, k), edits, k, |text|) == text[k..]
    decreases |text| - k
  {
    if k < |text| {
      var w := Weave(text, edits, k);
      assert w[|PieceAt(edits, k)|..] == CharAt(text, k) + Weave(text, edits, k + 1);
      UnweaveFrom(text, edits, k + 1);
    }
  }

  /** Deleting the insertions gives the original text back. */
  lemma InsertionsUndone(text: string, edits: seq<Edit>)
    ensures Unweave(Weave(text, edits, 0), edits, 0, |text|) == text
  {
    UnweaveFrom(text, edits, 0);
  }
}
