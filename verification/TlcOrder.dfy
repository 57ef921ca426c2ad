/**
 Sort keys and their order.  A key is a nested tuple of integers and strings, compared the way
 the script's language compares tuples; `SortBy` is a stable sort on such keys.
 */
module TlcOrder {

  datatype Key = KInt(i: int) | KStr(s: string) | KTup(ks: seq<Key>)

  // ---------- the order ----------

  predicate StrLess(a: string, b: string) {
    b != [] && (a == [] || a[0] < b[0] || (a[0] == b[0] && StrLess(a[1..], b[1..])))
  }

  /** Mixed kinds are never compared on sort keys; they are ranked here to make the order total. */
  predicate Less(a: Key, b: Key)
    decreases a, 1
  {
    match (a, b)
    case (KInt(i), KInt(j)) => i < j
    case (KStr(s), KStr(t)) => StrLess(s, t)
    case (KTup(xs), KTup(ys)) => TupLess(xs, ys)
    case (KInt(_), _) => true
    case (KStr(_), KTup(_)) => true
    case _ => false
  }

  predicate TupLess(xs: seq<Key>, ys: seq<Key>)
    decreases xs, 0
  {
    if ys == [] then false
    else if xs == [] then true
    else if xs[0] == ys[0] then TupLess(xs[1..], ys[1..])
    else Less(xs[0], ys[0])
  }

  predicate Leq(a: Key, b: Key) {
    a == b || Less(a, b)
  }

  lemma {:induction false} StrOrder(a: string, b: string, c: string)
    ensures StrLess(a, b) || a == b || StrLess(b, a)
    ensures !(StrLess(a, b) && StrLess(b, a)) && !StrLess(a, a)
    ensures StrLess(a, b) && StrLess(b, c) ==> StrLess(a, c)
    decreases |a| + |b| + |c|
  {
    if a != [] {
      assert a == [a[0]] + a[1..];
      StrOrder(a[1..], if b == [] then [] else b[1..], if c == [] then [] else c[1..]);
    }
    if b != [] {
      assert b == [b[0]] + b[1..];
    }
  }

  /** Less is a strict total order. */
  lemma {:induction false} Order(a: Key, b: Key, c: Key)
    ensures Less(a, b) || a == b || Less(b, a)
    ensures !(Less(a, b) && Less(b, a)) && !Less(a, a)
    ensures Less(a, b) && Less(b, c) ==> Less(a, c)
    decreases a, 1
  {
    if a.KStr? {
      StrOrder(a.s, if b.KStr? then b.s else [], if c.KStr? then c.s else []);
    } else if a.KTup? {
      TupOrder(a.ks, if b.KTup? then b.ks else [], if c.KTup? then c.ks else []);
    }
  }

  lemma {:induction false} TupOrder(xs: seq<Key>, ys: seq<Key>, zs: seq<Key>)
    ensures TupLess(xs, ys) || xs == ys || TupLess(ys, xs)
    ensures !(TupLess(xs, ys) && TupLess(ys, xs)) && !TupLess(xs, xs)
    ensures TupLess(xs, ys) && TupLess(ys, zs) ==> TupLess(xs, zs)
    decreases xs, 0
  {
    if xs != [] {
      assert xs == [xs[0]] + xs[1..];
      TupOrder(xs[1..], if ys == [] then [] else ys[1..], if zs == [] then [] else zs[1..]);
      Order(xs[0], if ys == [] then xs[0] else ys[0], if zs == [] then xs[0] else zs[0]);
      if ys != [] {
        assert ys == [ys[0]] + ys[1..];
      }
    }
  }

  // ---------- stable sorting by a key ----------

  function Map<T, U>(f: T -> U, xs: seq<T>): (r: seq<U>)
    ensures |r| == |xs| && forall i | 0 <= i < |xs| :: r[i] == f(xs[i])
  {
    seq(|xs|, i requires 0 <= i < |xs| => f(xs[i]))
  }

  function Insert<T>(x: T, xs: seq<T>, key: T -> Key): (r: seq<T>) {
    if xs == [] || Leq(key(x), key(xs[0])) then [x] + xs else [xs[0]] + Insert(x, xs[1..], key)
  }

  function SortBy<T>(xs: seq<T>, key: T -> Key): (r: seq<T>) {
    if xs == [] then [] else Insert(xs[0], SortBy(xs[1..], key), key)
  }

  lemma {:induction false} InsertShuffles<T>(x: T, xs: seq<T>, key: T -> Key)
    ensures multiset(Insert(x, xs, key)) == multiset{x} + multiset(xs)
  {
    if xs != [] {
      InsertShuffles(x, xs[1..], key);
      assert xs == [xs[0]] + xs[1..];
    }
  }

  /** Sorting only reorders. */
  lemma {:induction false} SortShuffles<T>(xs: seq<T>, key: T -> Key)
    ensures multiset(SortBy(xs, key)) == multiset(xs)
  {
    if xs != [] {
      SortShuffles(xs[1..], key);
      InsertShuffles(xs[0], SortBy(xs[1..], key), key);
      assert xs == [xs[0]] + xs[1..];
    }
  }

  predicate Sorted(ks: seq<Key>) {
    forall i, j | 0 <= i < j < |ks| :: Leq(ks[i], ks[j])
  }

  lemma SortedTail(ks: seq<Key>)
    requires Sorted(ks) && ks != []
    ensures Sorted(ks[1..]) && forall k | k in ks[1..] :: Leq(ks[0], k)
  {
    forall k | k in ks[1..]
      ensures Leq(ks[0], k)
    {
      var i :| 0 <= i < |ks| - 1 && ks[1..][i] == k;
      assert Leq(ks[0], ks[i + 1]);
    }
  }

  lemma SortedCons(k: Key, ks: seq<Key>)
    requires Sorted(ks) && forall l | l in ks :: Leq(k, l)
    ensures Sorted([k] + ks)
  {
  }

  lemma {:induction false} InsertedKeys<T>(x: T, xs: seq<T>, key: T -> Key, k: Key)
    requires k in Map(key, Insert(x, xs, key))
    ensures k == key(x) || k in Map(key, xs)
  {
    var r := Insert(x, xs, key);
    var j :| 0 <= j < |r| && key(r[j]) == k;
    InsertShuffles(x, xs, key);
    assert r[j] in multiset(r);
    if r[j] != x {
      assert r[j] in xs;
      var i :| 0 <= i < |xs| && xs[i] == r[j];
      assert Map(key, xs)[i] == k;
    }
  }

  lemma InsertFirst(k: Key, ks: seq<Key>)
    requires Sorted(ks) && ks != [] && Leq(k, ks[0])
    ensures Sorted([k] + ks)
  {
    SortedTail(ks);
    forall l | l in ks
      ensures Leq(k, l)
    {
      Order(k, ks[0], l);
      assert l == ks[0] || l in ks[1..];
    }
    SortedCons(k, ks);
  }

  lemma {:induction false} InsertSorted<T>(x: T, xs: seq<T>, key: T -> Key)
    requires Sorted(Map(key, xs))
    ensures Sorted(Map(key, Insert(x, xs, key)))
  {
    if xs != [] {
      var ks := Map(key, xs);
      MapConcat(key, [x], xs);
      MapConcat(key, [xs[0]], Insert(x, xs[1..], key));
      assert Map(key, [x]) == [key(x)] && Map(key, [xs[0]]) == [ks[0]] && Map(key, xs[1..]) == ks[1..];
      SortedTail(ks);
      if Leq(key(x), ks[0]) {
        InsertFirst(key(x), ks);
      } else {
        Order(key(x), ks[0], ks[0]);
        InsertSorted(x, xs[1..], key);
        forall k | k in Map(key, Insert(x, xs[1..], key))
          ensures Leq(ks[0], k)
        {
          InsertedKeys(x, xs[1..], key, k);
        }
        SortedCons(ks[0], Map(key, Insert(x, xs[1..], key)));
      }
    }
  }

  lemma {:induction false} SortBySorted<T>(xs: seq<T>, key: T -> Key)
    ensures Sorted(Map(key, SortBy(xs, key)))
  {
    if xs != [] {
      SortBySorted(xs[1..], key);
      InsertSorted(xs[0], SortBy(xs[1..], key), key);
    }
  }

  /** The elements with a given key, in order. */
  function Matching<T>(xs: seq<T>, key: T -> Key, k: Key): seq<T> {
    if xs == [] then []
    else if key(xs[0]) == k then [xs[0]] + Matching(xs[1..], key, k)
    else Matching(xs[1..], key, k)
  }

  lemma {:induction false} InsertStable<T>(x: T, xs: seq<T>, key: T -> Key, k: Key)
    ensures Matching(Insert(x, xs, key), key, k) == Matching([x] + xs, key, k)
  {
    assert ([x] + xs)[1..] == xs;
    if xs != [] && !Leq(key(x), key(xs[0])) {
      InsertStable(x, xs[1..], key, k);
      assert Insert(x, xs, key)[1..] == Insert(x, xs[1..], key);
      assert ([x] + xs[1..])[1..] == xs[1..];
    }
  }

  /** Sorting is stable: elements with equal keys keep their order. */
  lemma {:induction false} SortStable<T>(xs: seq<T>, key: T -> Key, k: Key)
    ensures Matching(SortBy(xs, key), key, k) == Matching(xs, key, k)
  {
    if xs != [] {
      SortStable(xs[1..], key, k);
      InsertStable(xs[0], SortBy(xs[1..], key), key, k);
      assert ([xs[0]] + SortBy(xs[1..], key))[1..] == SortBy(xs[1..], key);
    }
  }

  lemma TailMultiset<T>(xs: seq<T>)
    requires xs != []
    ensures xs == [xs[0]] + xs[1..] && multiset(xs[1..]) == multiset(xs) - multiset{xs[0]}
  {
    assert xs == [xs[0]] + xs[1..];
  }

  lemma FirstIsLeast(ks: seq<Key>, k: Key)
    requires Sorted(ks) && k in multiset(ks)
    ensures ks != [] && Leq(ks[0], k)
  {
    assert k in ks;
    Order(ks[0], ks[0], ks[0]);
  }

  /** A sorted list is determined by its elements and their multiplicities. */
  lemma {:induction false} SortedUnique(a: seq<Key>, b: seq<Key>)
    requires Sorted(a) && Sorted(b) && multiset(a) == multiset(b)
    ensures a == b
  {
    if a == [] {
      assert |multiset(b)| == 0;
    } else {
      assert a[0] in multiset(b);
      assert b != [] && b[0] in multiset(a);
      FirstIsLeast(a, b[0]);
      FirstIsLeast(b, a[0]);
      Order(a[0], b[0], a[0]);
      assert a[0] == b[0];
      TailMultiset(a);
      TailMultiset(b);
      SortedUnique(a[1..], b[1..]);
    }
  }

  lemma MapConcat<T, U>(f: T -> U, xs: seq<T>, ys: seq<T>)
    ensures Map(f, xs + ys) == Map(f, xs) + Map(f, ys)
  {
  }

  lemma MapRemove<T, U>(f: T -> U, ys: seq<T>, j: nat)
    requires j < |ys|
    ensures var rest := ys[..j] + ys[j + 1..];
            && multiset(rest) == multiset(ys) - multiset{ys[j]}
            && multiset(Map(f, ys)) == multiset(Map(f, rest)) + multiset{f(ys[j])}
  {
    var fs := Map(f, ys);
    RemoveOne(ys, j);
    RemoveOne(fs, j);
    assert Map(f, ys[..j] + ys[j + 1..]) == fs[..j] + fs[j + 1..];
  }

  lemma RemoveOne<T>(ys: seq<T>, j: nat)
    requires j < |ys|
    ensures multiset(ys) == multiset(ys[..j] + ys[j + 1..]) + multiset{ys[j]}
  {
    assert ys == ys[..j] + [ys[j]] + ys[j + 1..];
  }

  lemma Find<T>(ys: seq<T>, y: T) returns (j: nat)
    requires y in multiset(ys)
    ensures j < |ys| && ys[j] == y
  {
    j :| j < |ys| && ys[j] == y;
  }

  /** Mapping keeps multisets equal. */
  lemma {:induction false} MapMultiset<T, U>(f: T -> U, xs: seq<T>, ys: seq<T>)
    requires multiset(xs) == multiset(ys)
    ensures multiset(Map(f, xs)) == multiset(Map(f, ys))
  {
    if xs == [] {
      assert |multiset(ys)| == 0;
    } else {
      TailMultiset(xs);
      TailMultiset(Map(f, xs));
      assert Map(f, xs)[1..] == Map(f, xs[1..]);
      assert xs[0] in multiset(ys);
      var j := Find(ys, xs[0]);
      MapRemove(f, ys, j);
      MapMultiset(f, xs[1..], ys[..j] + ys[j + 1..]);
    }
  }
}
