/**
 The canonical order, said of the values themselves: which of two values comes first, without sort
 keys.  Sort keys compare in exactly this order, and the parts of a canonical value ascend in it.
 */
module TlcValueOrder {
  import opened TlcOrder
  import opened TlcCanonical
  import opened TlcJson
  import opened TlcReorder

  // ---------- the order on values ----------

  /** At the first place where they differ a has the smaller character, or a ends there. */
  predicate StringBelow(a: string, b: string) {
    exists k | 0 <= k <= |a| && k <= |b| :: StringBelowAt(a, b, k)
  }

  predicate StringBelowAt(a: string, b: string, k: nat)
    requires k <= |a| && k <= |b|
  {
    a[..k] == b[..k] && k < |b| && (k == |a| || a[k] < b[k])
  }

  /** Booleans, integers, strings, sets, sequences, records, functions. */
  function Rank(v: Value): nat {
    match v
    case Bool(_) => 0
    case Int(_) => 1
    case Str(_) => 2
    case SetOf(_) => 3
    case SeqOf(_) => 4
    case Record(_) => 5
    case Function(_) => 6
  }

  /** The same value, up to the order of record fields. */
  predicate Same(v: Value, w: Value) { FieldSorted(v) == FieldSorted(w) }

  predicate SameField(f: Field, g: Field) { f.name == g.name && Same(f.value, g.value) }

  predicate SameEntry(d: Entry, e: Entry) { Same(d.key, e.key) && Same(d.value, e.value) }

  /** The first place where two lists differ, or where the shorter one ends. */
  function FirstDifference<T>(xs: seq<T>, ys: seq<T>, same: (T, T) -> bool): (k: nat)
    ensures k <= |xs| && k <= |ys| && (forall i | 0 <= i < k :: same(xs[i], ys[i]))
    ensures k < |xs| && k < |ys| ==> !same(xs[k], ys[k])
  {
    if xs == [] || ys == [] || !same(xs[0], ys[0]) then 0 else 1 + FirstDifference(xs[1..], ys[1..], same)
  }

  function InsertField(f: Field, fs: seq<Field>): seq<Field> {
    if fs == [] || !StringBelow(fs[0].name, f.name) then [f] + fs else [fs[0]] + InsertField(f, fs[1..])
  }

  /** The fields in alphabetical order. */
  function Alphabetical(fs: seq<Field>): seq<Field> {
    if fs == [] then [] else InsertField(fs[0], Alphabetical(fs[1..]))
  }

  /**
   v comes before w: by kind first; then FALSE before TRUE, integers by size, strings by character,
   and compound values by the first place where their parts differ, shorter ones first.
   */
  predicate Below(v: Value, w: Value) {
    Rank(v) < Rank(w) || (Rank(v) == Rank(w) &&
      match v
      case Bool(b) => !b && w.b
      case Int(n) => n < w.n
      case Str(s) => StringBelow(s, w.s)
      case SetOf(xs) =>
        var k := FirstDifference(xs, w.xs, Same);
        k < |w.xs| && (k == |xs| || Below(xs[k], w.xs[k]))
      case SeqOf(xs) =>
        var k := FirstDifference(xs, w.xs, Same);
        k < |w.xs| && (k == |xs| || Below(xs[k], w.xs[k]))
      case Record(_) =>
        AlphabeticalMembers(v.fields);
        var fs, gs := Alphabetical(v.fields), Alphabetical(w.fields);
        var k := FirstDifference(fs, gs, SameField);
        k < |gs| && (k == |fs| || StringBelow(fs[k].name, gs[k].name) ||
                     (fs[k].name == gs[k].name && (assert fs[k] in v.fields; Below(fs[k].value, gs[k].value))))
      case Function(es) =>
        var k := FirstDifference(es, w.entries, SameEntry);
        k < |w.entries| && (k == |es| || Below(es[k].key, w.entries[k].key) ||
                            (Same(es[k].key, w.entries[k].key) && Below(es[k].value, w.entries[k].value))))
  }

  // ---------- strings and alphabetical order ----------

  lemma HeadsDiffer<T>(xs: seq<T>, ys: seq<T>, k: nat)
    requires 0 < k <= |xs| && k <= |ys| && xs[0] != ys[0]
    ensures xs[..k] != ys[..k]
  {
    assert xs[..k][0] == xs[0] && ys[..k][0] == ys[0];
  }

  lemma {:induction false} StrLessIsBelow(a: string, b: string)
    ensures StrLess(a, b) <==> StringBelow(a, b)
  {
    if a == [] || b == [] {
      if b != [] {
        assert StringBelowAt(a, b, 0);
      }
    } else if a[0] == b[0] {
      StrLessIsBelow(a[1..], b[1..]);
      BelowTail(a, b);
    } else {
      if a[0] < b[0] {
        assert StringBelowAt(a, b, 0);
      }
      forall k | 0 < k <= |a| && k <= |b|
        ensures a[..k] != b[..k]
      {
        HeadsDiffer(a, b, k);
      }
    }
  }

  lemma BelowTail(a: string, b: string)
    requires a != [] && b != [] && a[0] == b[0]
    ensures StringBelow(a[1..], b[1..]) <==> StringBelow(a, b)
  {
    if StringBelow(a[1..], b[1..]) {
      var k :| 0 <= k <= |a[1..]| && k <= |b[1..]| && StringBelowAt(a[1..], b[1..], k);
      assert a[..k + 1] == [a[0]] + a[1..][..k] && b[..k + 1] == [b[0]] + b[1..][..k];
      assert StringBelowAt(a, b, k + 1);
    }
    if StringBelow(a, b) {
      var k :| 0 <= k <= |a| && k <= |b| && StringBelowAt(a, b, k);
      assert k > 0;
      assert a[1..][..k - 1] == a[..k][1..] && b[1..][..k - 1] == b[..k][1..];
      assert StringBelowAt(a[1..], b[1..], k - 1);
    }
  }

  lemma {:induction false} InsertByName(f: Field, fs: seq<Field>)
    ensures InsertField(f, fs) == Insert(f, fs, NameKey)
  {
    if fs != [] {
      StrLessIsBelow(fs[0].name, f.name);
      StrOrder(fs[0].name, f.name, f.name);
      InsertByName(f, fs[1..]);
    }
  }

  lemma {:induction false} AlphabeticalIsSorted(fs: seq<Field>)
    ensures Alphabetical(fs) == SortBy(fs, NameKey)
  {
    if fs != [] {
      AlphabeticalIsSorted(fs[1..]);
      InsertByName(fs[0], Alphabetical(fs[1..]));
    }
  }

  lemma AlphabeticalMembers(fs: seq<Field>)
    ensures |Alphabetical(fs)| == |fs|
    ensures forall f :: f in Alphabetical(fs) <==> f in fs
  {
    AlphabeticalIsSorted(fs);
    SortedMembers(fs, NameKey);
  }

  // ---------- tuples of keys ----------

  predicate Equal(k: Key, l: Key) { k == l }

  /** Tuples compare at the first place where they differ. */
  lemma {:induction false} TupLessIff(ks: seq<Key>, ls: seq<Key>)
    ensures var k := FirstDifference(ks, ls, Equal);
            TupLess(ks, ls) <==> k < |ls| && (k == |ks| || Less(ks[k], ls[k]))
  {
    if ks != [] && ls != [] && ks[0] == ls[0] {
      TupLessIff(ks[1..], ls[1..]);
    }
  }

  /** Lists of keys first differ where the lists of things they are the keys of do. */
  lemma {:induction false} KeysDiffer<T>(xs: seq<T>, ys: seq<T>, key: T -> Key, same: (T, T) -> bool)
    requires forall i | 0 <= i < |xs| && i < |ys| :: key(xs[i]) == key(ys[i]) <==> same(xs[i], ys[i])
    ensures FirstDifference(Map(key, xs), Map(key, ys), Equal) == FirstDifference(xs, ys, same)
  {
    if xs != [] && ys != [] && same(xs[0], ys[0]) {
      forall i | 0 <= i < |xs[1..]| && i < |ys[1..]|
        ensures key(xs[1..][i]) == key(ys[1..][i]) <==> same(xs[1..][i], ys[1..][i])
      {
        assert xs[1..][i] == xs[i + 1] && ys[1..][i] == ys[i + 1];
      }
      KeysDiffer(xs[1..], ys[1..], key, same);
      assert Map(key, xs)[1..] == Map(key, xs[1..]) && Map(key, ys)[1..] == Map(key, ys[1..]);
    }
  }

  lemma PairLess(a: Key, k: Key, b: Key, l: Key)
    ensures Less(KTup([a, k]), KTup([b, l])) <==> Less(a, b) || (a == b && Less(k, l))
  {
    Order(a, a, a);
    Order(k, k, k);
    assert [a, k][1..] == [k] && [b, l][1..] == [l] && [k][1..] == [] && [l][1..] == [];
    assert TupLess([k], [l]) <==> Less(k, l);
  }

  // ---------- the keys compare as the values do ----------

  lemma TaggedLess(m: int, k: Key, n: int, l: Key)
    ensures Less(Tagged(m, k), Tagged(n, l)) <==> m < n || (m == n && Less(k, l))
  {
    PairLess(KInt(m), k, KInt(n), l);
  }

  lemma KeyRank(v: Value) returns (k: Key)
    ensures SortKey(v) == Tagged(Rank(v), k)
    ensures v.Bool? ==> k == KInt(if v.b then 1 else 0)
    ensures v.Int? ==> k == KInt(v.n)
    ensures v.Str? ==> k == KStr(v.s)
    ensures v.SetOf? || v.SeqOf? ==> k == KTup(Map(SortKey, v.xs))
    ensures v.Record? ==> k == KTup(Map(FieldPair, SortBy(v.fields, NameKey)))
    ensures v.Function? ==> k == KTup(Map(EntryPair, v.entries))
  {
    SortKeyShape(v);
    k := SortKey(v).ks[1];
  }

  /** Sort keys compare exactly as the values do. */
  lemma {:induction false} KeyOrder(v: Value, w: Value)
    ensures Less(SortKey(v), SortKey(w)) <==> Below(v, w)
    decreases v, 1
  {
    var k := KeyRank(v);
    var l := KeyRank(w);
    TaggedLess(Rank(v), k, Rank(w), l);
    if Rank(v) == Rank(w) {
      if v.SetOf? || v.SeqOf? {
        ElementsOrder(v, w);
      } else if v.Record? {
        FieldsOrder(v, w);
      } else if v.Function? {
        EntriesOrder(v, w);
      } else if v.Str? {
        StrLessIsBelow(v.s, w.s);
      }
    }
  }

  lemma {:induction false} ElementsOrder(v: Value, w: Value)
    requires (v.SetOf? && w.SetOf?) || (v.SeqOf? && w.SeqOf?)
    ensures TupLess(Map(SortKey, v.xs), Map(SortKey, w.xs)) <==> Below(v, w)
    decreases v, 0
  {
    ElementKeysDiffer(v.xs, w.xs);
    var k := FirstDifference(v.xs, w.xs, Same);
    if k < |v.xs| && k < |w.xs| {
      KeyOrder(v.xs[k], w.xs[k]);
    }
    ElementsBelow(v, w);
  }

  lemma ElementsBelow(v: Value, w: Value)
    requires (v.SetOf? && w.SetOf?) || (v.SeqOf? && w.SeqOf?)
    ensures var k := FirstDifference(v.xs, w.xs, Same);
            Below(v, w) <==> k < |w.xs| && (k == |v.xs| || Below(v.xs[k], w.xs[k]))
  {
  }

  lemma ElementKeysDiffer(xs: seq<Value>, ys: seq<Value>)
    ensures var k := FirstDifference(xs, ys, Same);
            TupLess(Map(SortKey, xs), Map(SortKey, ys)) <==>
            k < |ys| && (k == |xs| || Less(SortKey(xs[k]), SortKey(ys[k])))
  {
    TupLessIff(Map(SortKey, xs), Map(SortKey, ys));
    forall i | 0 <= i < |xs| && i < |ys|
      ensures SortKey(xs[i]) == SortKey(ys[i]) <==> Same(xs[i], ys[i])
    {
      KeyInjective(xs[i], ys[i]);
    }
    KeysDiffer(xs, ys, SortKey, Same);
  }

  lemma FieldPairsEqual(f: Field, g: Field)
    ensures FieldPair(f) == FieldPair(g) <==> SameField(f, g)
  {
    KeyInjective(f.value, g.value);
    PairEqual(NameKey(f), SortKey(f.value), NameKey(g), SortKey(g.value));
  }

  lemma {:induction false} FieldsOrder(v: Value, w: Value)
    requires v.Record? && w.Record?
    ensures TupLess(Map(FieldPair, SortBy(v.fields, NameKey)), Map(FieldPair, SortBy(w.fields, NameKey))) <==>
            Below(v, w)
    decreases v, 0
  {
    AlphabeticalMembers(v.fields);
    AlphabeticalIsSorted(v.fields);
    AlphabeticalIsSorted(w.fields);
    var fs, gs := Alphabetical(v.fields), Alphabetical(w.fields);
    TupLessIff(Map(FieldPair, fs), Map(FieldPair, gs));
    forall i | 0 <= i < |fs| && i < |gs|
      ensures FieldPair(fs[i]) == FieldPair(gs[i]) <==> SameField(fs[i], gs[i])
    {
      FieldPairsEqual(fs[i], gs[i]);
    }
    KeysDiffer(fs, gs, FieldPair, SameField);
    var k := FirstDifference(fs, gs, SameField);
    if k < |fs| && k < |gs| {
      assert fs[k] in v.fields;
      KeyOrder(fs[k].value, gs[k].value);
      StrLessIsBelow(fs[k].name, gs[k].name);
      PairLess(NameKey(fs[k]), SortKey(fs[k].value), NameKey(gs[k]), SortKey(gs[k].value));
    }
  }

  lemma EntryPairsEqual(d: Entry, e: Entry)
    ensures EntryPair(d) == EntryPair(e) <==> SameEntry(d, e)
  {
    KeyInjective(d.key, e.key);
    KeyInjective(d.value, e.value);
    PairEqual(EntryKey(d), SortKey(d.value), EntryKey(e), SortKey(e.value));
  }

  lemma {:induction false} EntriesOrder(v: Value, w: Value)
    requires v.Function? && w.Function?
    ensures TupLess(Map(EntryPair, v.entries), Map(EntryPair, w.entries)) <==> Below(v, w)
    decreases v, 0
  {
    var es, gs := v.entries, w.entries;
    TupLessIff(Map(EntryPair, es), Map(EntryPair, gs));
    forall i | 0 <= i < |es| && i < |gs|
      ensures EntryPair(es[i]) == EntryPair(gs[i]) <==> SameEntry(es[i], gs[i])
    {
      EntryPairsEqual(es[i], gs[i]);
    }
    KeysDiffer(es, gs, EntryPair, SameEntry);
    var k := FirstDifference(es, gs, SameEntry);
    if k < |es| && k < |gs| {
      KeyOrder(es[k].key, gs[k].key);
      KeyOrder(es[k].value, gs[k].value);
      KeyInjective(es[k].key, gs[k].key);
      PairLess(EntryKey(es[k]), SortKey(es[k].value), EntryKey(gs[k]), SortKey(gs[k].value));
    }
  }

  // ---------- canonical values ascend ----------

  lemma NotAfter(v: Value, w: Value)
    requires Leq(SortKey(v), SortKey(w))
    ensures !Below(w, v)
  {
    KeyOrder(w, v);
    Order(SortKey(v), SortKey(w), SortKey(v));
  }

  /** The elements of a canonical set, and the arguments of a canonical function, ascend; nothing is lost or added. */
  lemma CanonAscends(v: Value)
    ensures v.SetOf? ==>
              var xs := Canon(v).xs;
              && multiset(xs) == multiset(Map(Canon, v.xs))
              && forall i, j | 0 <= i < j < |xs| :: !Below(xs[j], xs[i])
    ensures v.Function? ==>
              var es := Canon(v).entries;
              && multiset(es) == multiset(Map(CanonEntry, v.entries))
              && forall i, j | 0 <= i < j < |es| :: !Below(es[j].key, es[i].key)
  {
    CanonShape(v);
    if v.SetOf? {
      SetAscends(v);
    } else if v.Function? {
      FunctionAscends(v);
    }
  }

  lemma SetAscends(v: Value)
    requires v.SetOf?
    ensures var xs := Canon(v).xs;
            && multiset(xs) == multiset(Map(Canon, v.xs))
            && forall i, j | 0 <= i < j < |xs| :: !Below(xs[j], xs[i])
  {
    CanonShape(v);
    var cs := Map(Canon, v.xs);
    SortBySorted(cs, SortKey);
    SortShuffles(cs, SortKey);
    var xs := SortBy(cs, SortKey);
    forall i, j | 0 <= i < j < |xs|
      ensures !Below(xs[j], xs[i])
    {
      assert Leq(Map(SortKey, xs)[i], Map(SortKey, xs)[j]);
      NotAfter(xs[i], xs[j]);
    }
  }

  lemma FunctionAscends(v: Value)
    requires v.Function?
    ensures var es := Canon(v).entries;
            && multiset(es) == multiset(Map(CanonEntry, v.entries))
            && forall i, j | 0 <= i < j < |es| :: !Below(es[j].key, es[i].key)
  {
    CanonShape(v);
    var cs := Map(CanonEntry, v.entries);
    SortBySorted(cs, EntryKey);
    SortShuffles(cs, EntryKey);
    var es := SortBy(cs, EntryKey);
    forall i, j | 0 <= i < j < |es|
      ensures !Below(es[j].key, es[i].key)
    {
      assert Leq(Map(EntryKey, es)[i], Map(EntryKey, es)[j]);
      NotAfter(es[i].key, es[j].key);
    }
  }

  /** For example, a set of two integers is put in numeric order. */
  lemma IntegersAscend(m: int, n: int)
    requires m < n
    ensures Canon(SetOf([Int(n), Int(m)])) == Canon(SetOf([Int(m), Int(n)])) == SetOf([Int(m), Int(n)])
  {
    PairLess(KInt(1), KInt(m), KInt(1), KInt(n));
    PairLess(KInt(1), KInt(n), KInt(1), KInt(m));
    PairEqual(KInt(1), KInt(m), KInt(1), KInt(n));
    TwoSorted(Int(n), Int(m));
    TwoSorted(Int(m), Int(n));
  }

  lemma TwoSorted(v: Value, w: Value)
    requires v.Int? && w.Int?
    ensures Canon(SetOf([v, w])) ==
            SetOf(if Leq(SortKey(v), SortKey(w)) then [v, w] else [w, v])
  {
    CanonShape(SetOf([v, w]));
    assert Map(Canon, [v, w]) == [v, w];
    assert [v, w][1..] == [w] && [w][1..] == [];
    assert SortBy([w], SortKey) == Insert(w, [], SortKey) == [w];
    assert SortBy([v, w], SortKey) == Insert(v, [w], SortKey);
    assert Insert(v, [], SortKey) == [v];
  }
}
