/**
 Parsed TLC values, their sort keys, their canonical form and their JSON normalisation.

 A dictionary is dumped with sorted keys, so a JSON object is a map here.
 */
module TlcCanonical {
  import opened TlcOrder

  // ---------- values ----------

  datatype Value =
    | Bool(b: bool)
    | Int(n: int)
    | Str(s: string)                 // a string or a model value
    | SetOf(xs: seq<Value>)
    | SeqOf(xs: seq<Value>)
    | Record(fields: seq<Field>)     // in insertion order
    | Function(entries: seq<Entry>)

  datatype Field = Field(name: string, value: Value)

  datatype Entry = Entry(key: Value, value: Value)

  function NameKey(f: Field): Key { KStr(f.name) }

  // ---------- sort keys ----------

  function Tagged(tag: int, k: Key): Key { KTup([KInt(tag), k]) }

  function SortKey(v: Value): Key {
    match v
    case Bool(b) => Tagged(0, KInt(if b then 1 else 0))
    case Int(n) => Tagged(1, KInt(n))
    case Str(s) => Tagged(2, KStr(s))
    case SetOf(xs) => Tagged(3, KTup(seq(|xs|, i requires 0 <= i < |xs| => SortKey(xs[i]))))
    case SeqOf(xs) => Tagged(4, KTup(seq(|xs|, i requires 0 <= i < |xs| => SortKey(xs[i]))))
    case Record(fs) =>
      var gs := SortBy(fs, NameKey);
      SortedMembers(fs, NameKey);
      Tagged(5, KTup(seq(|gs|, i requires 0 <= i < |gs| =>
        assert gs[i] in gs && gs[i] in fs; KTup([KStr(gs[i].name), SortKey(gs[i].value)]))))
    case Function(es) =>
      Tagged(6, KTup(seq(|es|, i requires 0 <= i < |es| => KTup([SortKey(es[i].key), SortKey(es[i].value)]))))
  }

  lemma SortedMembers<T>(xs: seq<T>, key: T -> Key)
    ensures |SortBy(xs, key)| == |xs|
    ensures forall x :: x in SortBy(xs, key) <==> x in xs
  {
    SortShuffles(xs, key);
    assert |multiset(SortBy(xs, key))| == |multiset(xs)|;
    assert forall x :: x in SortBy(xs, key) <==> x in multiset(SortBy(xs, key));
  }

  /** Comparing a with b never compares an integer, a string or a tuple with one of another kind. */
  predicate Comparable(a: Key, b: Key)
    decreases a, 1
  {
    match (a, b)
    case (KInt(_), KInt(_)) => true
    case (KStr(_), KStr(_)) => true
    case (KTup(xs), KTup(ys)) => ComparableTuples(xs, ys)
    case _ => false
  }

  predicate ComparableTuples(xs: seq<Key>, ys: seq<Key>)
    decreases xs, 0
  {
    xs == [] || ys == [] || if xs[0] == ys[0] then ComparableTuples(xs[1..], ys[1..]) else Comparable(xs[0], ys[0])
  }

  // ---------- canonical form ----------

  /** What the parser returns: sets and functions sorted by key at every depth, records as printed. */
  function Canon(v: Value): Value {
    match v
    case SetOf(xs) => SetOf(SortBy(seq(|xs|, i requires 0 <= i < |xs| => Canon(xs[i])), SortKey))
    case SeqOf(xs) => SeqOf(seq(|xs|, i requires 0 <= i < |xs| => Canon(xs[i])))
    case Record(fs) => Record(seq(|fs|, i requires 0 <= i < |fs| => Field(fs[i].name, Canon(fs[i].value))))
    case Function(es) =>
      Function(SortBy(seq(|es|, i requires 0 <= i < |es| => Entry(Canon(es[i].key), Canon(es[i].value))), EntryKey))
    case _ => v
  }

  function EntryKey(e: Entry): Key { SortKey(e.key) }

  function FieldPair(f: Field): Key { KTup([KStr(f.name), SortKey(f.value)]) }

  function EntryPair(e: Entry): Key { KTup([SortKey(e.key), SortKey(e.value)]) }

  lemma SortKeyShape(v: Value)
    ensures v.SetOf? ==> SortKey(v) == Tagged(3, KTup(Map(SortKey, v.xs)))
    ensures v.SeqOf? ==> SortKey(v) == Tagged(4, KTup(Map(SortKey, v.xs)))
    ensures v.Record? ==> SortKey(v) == Tagged(5, KTup(Map(FieldPair, SortBy(v.fields, NameKey))))
    ensures v.Function? ==> SortKey(v) == Tagged(6, KTup(Map(EntryPair, v.entries)))
  {
    match v
    case SetOf(xs) => assert Map(SortKey, xs) == SortKey(v).ks[1].ks;
    case SeqOf(xs) => assert Map(SortKey, xs) == SortKey(v).ks[1].ks;
    case Record(fs) => assert Map(FieldPair, SortBy(fs, NameKey)) == SortKey(v).ks[1].ks;
    case Function(es) => assert Map(EntryPair, es) == SortKey(v).ks[1].ks;
    case _ =>
  }

  // ---------- the order never mixes kinds, and keys are injective up to field order ----------

  lemma {:induction false} TuplesComparable(xs: seq<Key>, ys: seq<Key>)
    requires forall i, j | 0 <= i < |xs| && 0 <= j < |ys| :: Comparable(xs[i], ys[j])
    ensures ComparableTuples(xs, ys)
  {
    if xs != [] && ys != [] {
      TuplesComparable(xs[1..], ys[1..]);
    }
  }

  lemma PairsComparable(a: Key, k: Key, b: Key, l: Key)
    requires Comparable(a, b) && (a == b ==> Comparable(k, l))
    ensures Comparable(KTup([a, k]), KTup([b, l]))
  {
    assert [a, k][1..] == [k] && [b, l][1..] == [l];
    assert ComparableTuples([k][1..], [l][1..]);
    assert a == b ==> ComparableTuples([k], [l]);
  }

  /** Sorting values by key never raises: any two sort keys can be compared. */
  lemma {:induction false} SortKeysComparable(v: Value, w: Value)
    ensures Comparable(SortKey(v), SortKey(w))
    decreases v, 1
  {
    SortKeyShape(v);
    SortKeyShape(w);
    match (v, w) {
      case (SetOf(xs), SetOf(ys)) => ElementsComparable(v, w);
      case (SeqOf(xs), SeqOf(ys)) => ElementsComparable(v, w);
      case (Record(fs), Record(gs)) => FieldsComparable(v, w);
      case (Function(es), Function(gs)) => EntriesComparable(v, w);
      case _ =>
    }
    var k, l := SortKey(v).ks, SortKey(w).ks;
    PairsComparable(k[0], k[1], l[0], l[1]);
  }

  lemma {:induction false} ElementsComparable(v: Value, w: Value)
    requires (v.SetOf? || v.SeqOf?) && (w.SetOf? || w.SeqOf?)
    ensures ComparableTuples(Map(SortKey, v.xs), Map(SortKey, w.xs))
    decreases v, 0
  {
    forall i, j | 0 <= i < |v.xs| && 0 <= j < |w.xs|
      ensures Comparable(SortKey(v.xs[i]), SortKey(w.xs[j]))
    {
      SortKeysComparable(v.xs[i], w.xs[j]);
    }
    TuplesComparable(Map(SortKey, v.xs), Map(SortKey, w.xs));
  }

  lemma {:induction false} FieldsComparable(v: Value, w: Value)
    requires v.Record? && w.Record?
    ensures ComparableTuples(Map(FieldPair, SortBy(v.fields, NameKey)), Map(FieldPair, SortBy(w.fields, NameKey)))
    decreases v, 0
  {
    var fs, gs := SortBy(v.fields, NameKey), SortBy(w.fields, NameKey);
    SortedMembers(v.fields, NameKey);
    forall i, j | 0 <= i < |fs| && 0 <= j < |gs|
      ensures Comparable(FieldPair(fs[i]), FieldPair(gs[j]))
    {
      assert fs[i] in v.fields;
      SortKeysComparable(fs[i].value, gs[j].value);
      PairsComparable(NameKey(fs[i]), SortKey(fs[i].value), NameKey(gs[j]), SortKey(gs[j].value));
    }
    TuplesComparable(Map(FieldPair, fs), Map(FieldPair, gs));
  }

  lemma {:induction false} EntriesComparable(v: Value, w: Value)
    requires v.Function? && w.Function?
    ensures ComparableTuples(Map(EntryPair, v.entries), Map(EntryPair, w.entries))
    decreases v, 0
  {
    var es, gs := v.entries, w.entries;
    forall i, j | 0 <= i < |es| && 0 <= j < |gs|
      ensures Comparable(EntryPair(es[i]), EntryPair(gs[j]))
    {
      SortKeysComparable(es[i].key, gs[j].key);
      SortKeysComparable(es[i].value, gs[j].value);
      PairsComparable(EntryKey(es[i]), SortKey(es[i].value), EntryKey(gs[j]), SortKey(gs[j].value));
    }
    TuplesComparable(Map(EntryPair, es), Map(EntryPair, gs));
  }

  /** The value with the fields of every record, at every depth, in alphabetical order. */
  function FieldSorted(v: Value): Value {
    match v
    case SetOf(xs) => SetOf(seq(|xs|, i requires 0 <= i < |xs| => FieldSorted(xs[i])))
    case SeqOf(xs) => SeqOf(seq(|xs|, i requires 0 <= i < |xs| => FieldSorted(xs[i])))
    case Record(fs) =>
      var gs := SortBy(fs, NameKey);
      SortedMembers(fs, NameKey);
      Record(seq(|gs|, i requires 0 <= i < |gs| =>
        assert gs[i] in gs && gs[i] in fs; Field(gs[i].name, FieldSorted(gs[i].value))))
    case Function(es) =>
      Function(seq(|es|, i requires 0 <= i < |es| => Entry(FieldSorted(es[i].key), FieldSorted(es[i].value))))
    case _ => v
  }

  lemma FieldSortedShape(v: Value)
    ensures v.SetOf? ==> FieldSorted(v) == SetOf(Map(FieldSorted, v.xs))
    ensures v.SeqOf? ==> FieldSorted(v) == SeqOf(Map(FieldSorted, v.xs))
    ensures v.Record? ==> FieldSorted(v) == Record(Map(SortedField, SortBy(v.fields, NameKey)))
    ensures v.Function? ==> FieldSorted(v) == Function(Map(SortedEntry, v.entries))
  {
    match v
    case SetOf(xs) => assert Map(FieldSorted, xs) == FieldSorted(v).xs;
    case SeqOf(xs) => assert Map(FieldSorted, xs) == FieldSorted(v).xs;
    case Record(fs) => assert Map(SortedField, SortBy(fs, NameKey)) == FieldSorted(v).fields;
    case Function(es) => assert Map(SortedEntry, es) == FieldSorted(v).entries;
    case _ =>
  }

  function SortedField(f: Field): Field { Field(f.name, FieldSorted(f.value)) }

  function SortedEntry(e: Entry): Entry { Entry(FieldSorted(e.key), FieldSorted(e.value)) }

  /** Pointwise equality under one function is pointwise equality under another. */
  lemma SameMaps<T, U, V>(f: T -> U, g: T -> V, xs: seq<T>, ys: seq<T>)
    requires forall i | 0 <= i < |xs| && i < |ys| :: f(xs[i]) == f(ys[i]) <==> g(xs[i]) == g(ys[i])
    ensures Map(f, xs) == Map(f, ys) <==> Map(g, xs) == Map(g, ys)
  {
    if Map(f, xs) == Map(f, ys) {
      forall i | 0 <= i < |xs| ensures g(xs[i]) == g(ys[i]) { assert Map(f, xs)[i] == Map(f, ys)[i]; }
    }
    if Map(g, xs) == Map(g, ys) {
      forall i | 0 <= i < |xs| ensures f(xs[i]) == f(ys[i]) { assert Map(g, xs)[i] == Map(g, ys)[i]; }
    }
  }

  /** Two values have the same sort key exactly when they differ only in the order of record fields. */
  lemma {:induction false} KeyInjective(v: Value, w: Value)
    ensures SortKey(v) == SortKey(w) <==> FieldSorted(v) == FieldSorted(w)
    decreases v, 1
  {
    SortKeyShape(v);
    SortKeyShape(w);
    FieldSortedShape(v);
    FieldSortedShape(w);
    match (v, w) {
      case (SetOf(xs), SetOf(ys)) => ElementsInjective(v, w);
      case (SeqOf(xs), SeqOf(ys)) => ElementsInjective(v, w);
      case (Record(fs), Record(gs)) => FieldsInjective(v, w);
      case (Function(es), Function(gs)) => EntriesInjective(v, w);
      case _ =>
    }
    PairEqual(SortKey(v).ks[0], SortKey(v).ks[1], SortKey(w).ks[0], SortKey(w).ks[1]);
  }

  lemma {:induction false} ElementsInjective(v: Value, w: Value)
    requires (v.SetOf? || v.SeqOf?) && (w.SetOf? || w.SeqOf?)
    ensures Map(SortKey, v.xs) == Map(SortKey, w.xs) <==> Map(FieldSorted, v.xs) == Map(FieldSorted, w.xs)
    decreases v, 0
  {
    forall i | 0 <= i < |v.xs| && i < |w.xs|
      ensures SortKey(v.xs[i]) == SortKey(w.xs[i]) <==> FieldSorted(v.xs[i]) == FieldSorted(w.xs[i])
    {
      KeyInjective(v.xs[i], w.xs[i]);
    }
    SameMaps(SortKey, FieldSorted, v.xs, w.xs);
  }

  lemma {:induction false} FieldsInjective(v: Value, w: Value)
    requires v.Record? && w.Record?
    ensures var fs, gs := SortBy(v.fields, NameKey), SortBy(w.fields, NameKey);
            Map(FieldPair, fs) == Map(FieldPair, gs) <==> Map(SortedField, fs) == Map(SortedField, gs)
    decreases v, 0
  {
    var fs, gs := SortBy(v.fields, NameKey), SortBy(w.fields, NameKey);
    SortedMembers(v.fields, NameKey);
    forall i | 0 <= i < |fs| && i < |gs|
      ensures FieldPair(fs[i]) == FieldPair(gs[i]) <==> SortedField(fs[i]) == SortedField(gs[i])
    {
      assert fs[i] in v.fields;
      KeyInjective(fs[i].value, gs[i].value);
      PairEqual(NameKey(fs[i]), SortKey(fs[i].value), NameKey(gs[i]), SortKey(gs[i].value));
    }
    SameMaps(FieldPair, SortedField, fs, gs);
  }

  lemma {:induction false} EntriesInjective(v: Value, w: Value)
    requires v.Function? && w.Function?
    ensures Map(EntryPair, v.entries) == Map(EntryPair, w.entries) <==>
            Map(SortedEntry, v.entries) == Map(SortedEntry, w.entries)
    decreases v, 0
  {
    var es, gs := v.entries, w.entries;
    forall i | 0 <= i < |es| && i < |gs|
      ensures EntryPair(es[i]) == EntryPair(gs[i]) <==> SortedEntry(es[i]) == SortedEntry(gs[i])
    {
      KeyInjective(es[i].key, gs[i].key);
      KeyInjective(es[i].value, gs[i].value);
      PairEqual(EntryKey(es[i]), SortKey(es[i].value), EntryKey(gs[i]), SortKey(gs[i].value));
    }
    SameMaps(EntryPair, SortedEntry, es, gs);
  }

  lemma PairEqual(a: Key, k: Key, b: Key, l: Key)
    ensures KTup([a, k]) == KTup([b, l]) <==> a == b && k == l
  {
    if KTup([a, k]) == KTup([b, l]) {
      assert [a, k][0] == [b, l][0] && [a, k][1] == [b, l][1];
    }
  }
}
