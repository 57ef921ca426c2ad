/** The canonical JSON does not depend on the order TLC prints elements, entries and fields in. */
module TlcReorder {
  import opened TlcOrder
  import opened TlcCanonical
  import opened TlcJson

  /** The sort key of the canonical form. */
  function CanonKey(v: Value): Key { SortKey(Canon(v)) }

  /** Records with distinct field names, and functions in which a repeated argument repeats its value. */
  predicate WellFormed(v: Value) {
    match v
    case SetOf(xs) => forall i | 0 <= i < |xs| :: WellFormed(xs[i])
    case SeqOf(xs) => forall i | 0 <= i < |xs| :: WellFormed(xs[i])
    case Record(fs) => DistinctNames(fs) && forall i | 0 <= i < |fs| :: WellFormed(fs[i].value)
    case Function(es) =>
      Consistent(es) && forall i | 0 <= i < |es| :: WellFormed(es[i].key) && WellFormed(es[i].value)
    case _ => true
  }

  predicate Consistent(es: seq<Entry>) {
    forall i, j {:trigger ArgumentKey(es[i]), ArgumentKey(es[j])}
      | 0 <= i < j < |es| && ArgumentKey(es[i]) == ArgumentKey(es[j]) :: CanonEntryPair(es[i]) == CanonEntryPair(es[j])
  }

  function ArgumentKey(e: Entry): Key { CanonKey(e.key) }

  /** w prints the same value as v with elements, entries and fields reordered at any depth. */
  ghost predicate Reordered(v: Value, w: Value) {
    match v
    case SetOf(xs) =>
      w.SetOf? && exists zs: seq<Value> ::
        multiset(zs) == multiset(w.xs) && |zs| == |xs| && forall i | 0 <= i < |xs| :: Reordered(xs[i], zs[i])
    case SeqOf(xs) =>
      w.SeqOf? && |w.xs| == |xs| && forall i | 0 <= i < |xs| :: Reordered(xs[i], w.xs[i])
    case Record(fs) =>
      w.Record? && exists gs: seq<Field> ::
        && multiset(gs) == multiset(w.fields) && |gs| == |fs|
        && forall i | 0 <= i < |fs| :: fs[i].name == gs[i].name && Reordered(fs[i].value, gs[i].value)
    case Function(es) =>
      w.Function? && exists gs: seq<Entry> ::
        && multiset(gs) == multiset(w.entries) && |gs| == |es|
        && forall i | 0 <= i < |es| :: Reordered(es[i].key, gs[i].key) && Reordered(es[i].value, gs[i].value)
    case _ => w == v
  }

  // ---------- canonical keys as sorted lists ----------

  function CanonField(f: Field): Field { Field(f.name, Canon(f.value)) }

  function CanonEntry(e: Entry): Entry { Entry(Canon(e.key), Canon(e.value)) }

  function CanonFieldPair(f: Field): Key { KTup([KStr(f.name), CanonKey(f.value)]) }

  function CanonEntryPair(e: Entry): Key { KTup([CanonKey(e.key), CanonKey(e.value)]) }

  lemma CanonShape(v: Value)
    ensures v.SetOf? ==> Canon(v) == SetOf(SortBy(Map(Canon, v.xs), SortKey))
    ensures v.SeqOf? ==> Canon(v) == SeqOf(Map(Canon, v.xs))
    ensures v.Record? ==> Canon(v) == Record(Map(CanonField, v.fields))
    ensures v.Function? ==> Canon(v) == Function(SortBy(Map(CanonEntry, v.entries), EntryKey))
  {
    match v
    case SetOf(xs) => assert seq(|xs|, i requires 0 <= i < |xs| => Canon(xs[i])) == Map(Canon, xs);
    case SeqOf(xs) => assert seq(|xs|, i requires 0 <= i < |xs| => Canon(xs[i])) == Map(Canon, xs);
    case Record(fs) =>
      assert seq(|fs|, i requires 0 <= i < |fs| => Field(fs[i].name, Canon(fs[i].value))) == Map(CanonField, fs);
    case Function(es) =>
      assert seq(|es|, i requires 0 <= i < |es| => Entry(Canon(es[i].key), Canon(es[i].value))) == Map(CanonEntry, es);
    case _ =>
  }

  /** A list of pairs sorted by first components is a sorted list of pairs, if those determine the pairs. */
  lemma SortedPairs<T>(xs: seq<T>, key: T -> Key, pair: T -> Key)
    requires forall x, y | x in xs && y in xs && key(x) == key(y) :: pair(x) == pair(y)
    requires forall x | x in xs :: pair(x).KTup? && |pair(x).ks| == 2 && pair(x).ks[0] == key(x)
    ensures Sorted(Map(pair, SortBy(xs, key)))
  {
    var ys := SortBy(xs, key);
    SortBySorted(xs, key);
    SortedMembers(xs, key);
    forall i, j | 0 <= i < j < |ys|
      ensures Leq(pair(ys[i]), pair(ys[j]))
    {
      assert ys[i] in ys && ys[j] in ys;
      assert Leq(Map(key, ys)[i], Map(key, ys)[j]);
    }
  }

  lemma NamesDetermineFields(fs: seq<Field>)
    requires DistinctNames(fs)
    ensures forall f, g | f in fs && g in fs && NameKey(f) == NameKey(g) :: f == g
  {
    forall f, g | f in fs && g in fs && NameKey(f) == NameKey(g)
      ensures f == g
    {
      FieldByName(fs, f);
      FieldByName(fs, g);
    }
  }

  lemma CanonEntryKeys(e: Entry)
    ensures EntryKey(CanonEntry(e)) == ArgumentKey(e) && EntryPair(CanonEntry(e)) == CanonEntryPair(e)
  {
  }

  lemma ConsistentAt(es: seq<Entry>, i: nat, j: nat)
    requires Consistent(es) && i < |es| && j < |es| && ArgumentKey(es[i]) == ArgumentKey(es[j])
    ensures CanonEntryPair(es[i]) == CanonEntryPair(es[j])
  {
  }

  lemma ConsistentCanon(es: seq<Entry>)
    requires Consistent(es)
    ensures forall d, e | d in Map(CanonEntry, es) && e in Map(CanonEntry, es) && EntryKey(d) == EntryKey(e) ::
              EntryPair(d) == EntryPair(e)
  {
    var cs := Map(CanonEntry, es);
    forall d, e | d in cs && e in cs && EntryKey(d) == EntryKey(e)
      ensures EntryPair(d) == EntryPair(e)
    {
      var i :| 0 <= i < |cs| && cs[i] == d;
      var j :| 0 <= j < |cs| && cs[j] == e;
      CanonEntryKeys(es[i]);
      CanonEntryKeys(es[j]);
      ConsistentAt(es, i, j);
    }
  }

  lemma MapTwice<T, U, V>(g: U -> V, f: T -> U, h: T -> V, xs: seq<T>)
    requires forall x | x in xs :: g(f(x)) == h(x)
    ensures Map(g, Map(f, xs)) == Map(h, xs)
  {
    assert forall i | 0 <= i < |xs| :: xs[i] in xs;
  }

  /** The keys inside a canonical set, record or function: sorted, and those of its parts. */
  lemma SetKeys(xs: seq<Value>) returns (ks: seq<Key>)
    ensures CanonKey(SetOf(xs)) == Tagged(3, KTup(ks)) && Sorted(ks) && multiset(ks) == multiset(Map(CanonKey, xs))
  {
    var cs := Map(Canon, xs);
    CanonShape(SetOf(xs));
    SortKeyShape(SetOf(SortBy(cs, SortKey)));
    SortBySorted(cs, SortKey);
    SortShuffles(cs, SortKey);
    MapMultiset(SortKey, SortBy(cs, SortKey), cs);
    MapTwice(SortKey, Canon, CanonKey, xs);
    ks := Map(SortKey, SortBy(cs, SortKey));
  }

  lemma RecordKeys(fs: seq<Field>) returns (ks: seq<Key>)
    requires DistinctNames(fs)
    ensures CanonKey(Record(fs)) == Tagged(5, KTup(ks)) && Sorted(ks)
    ensures multiset(ks) == multiset(Map(CanonFieldPair, fs))
  {
    var cs := Map(CanonField, fs);
    CanonShape(Record(fs));
    SortKeyShape(Record(cs));
    MapTwice(NameKey, CanonField, NameKey, fs);
    NamesDetermineFields(cs);
    SortedPairs(cs, NameKey, FieldPair);
    SortShuffles(cs, NameKey);
    MapMultiset(FieldPair, SortBy(cs, NameKey), cs);
    MapTwice(FieldPair, CanonField, CanonFieldPair, fs);
    ks := Map(FieldPair, SortBy(cs, NameKey));
  }

  lemma FunctionKeys(es: seq<Entry>) returns (ks: seq<Key>)
    requires Consistent(es)
    ensures CanonKey(Function(es)) == Tagged(6, KTup(ks)) && Sorted(ks)
    ensures multiset(ks) == multiset(Map(CanonEntryPair, es))
  {
    var cs := Map(CanonEntry, es);
    CanonShape(Function(es));
    SortKeyShape(Function(SortBy(cs, EntryKey)));
    ConsistentCanon(es);
    SortedPairs(cs, EntryKey, EntryPair);
    SortShuffles(cs, EntryKey);
    MapMultiset(EntryPair, SortBy(cs, EntryKey), cs);
    MapTwice(EntryPair, CanonEntry, CanonEntryPair, es);
    ks := Map(EntryPair, SortBy(cs, EntryKey));
  }

  lemma Shuffled<T>(xs: seq<T>, ys: seq<T>, y: T)
    requires multiset(xs) == multiset(ys)
    ensures y in xs <==> y in ys
  {
    assert y in xs <==> y in multiset(xs);
  }

  // ---------- reordering keeps the canonical key ----------

  lemma {:induction false} ReorderedSameKey(v: Value, w: Value)
    requires WellFormed(v) && WellFormed(w) && Reordered(v, w)
    ensures CanonKey(v) == CanonKey(w)
    decreases v, 1
  {
    match v {
      case SetOf(xs) => SetSameKey(v, w);
      case SeqOf(xs) =>
        CanonShape(v);
        CanonShape(w);
        SortKeyShape(Canon(v));
        SortKeyShape(Canon(w));
        forall i | 0 <= i < |xs| ensures CanonKey(xs[i]) == CanonKey(w.xs[i]) { ReorderedSameKey(xs[i], w.xs[i]); }
        assert Map(SortKey, Map(Canon, xs)) == Map(SortKey, Map(Canon, w.xs));
      case Record(fs) => RecordSameKey(v, w);
      case Function(es) => FunctionSameKey(v, w);
      case _ =>
    }
  }

  lemma {:induction false} SetSameKey(v: Value, w: Value)
    requires WellFormed(v) && WellFormed(w) && Reordered(v, w) && v.SetOf?
    ensures CanonKey(v) == CanonKey(w)
    decreases v, 0, 1
  {
    var xs := v.xs;
    var zs: seq<Value> :|
      multiset(zs) == multiset(w.xs) && |zs| == |xs| && forall i | 0 <= i < |xs| :: Reordered(xs[i], zs[i]);
    forall i | 0 <= i < |zs|
      ensures WellFormed(zs[i])
    {
      Shuffled(zs, w.xs, zs[i]);
    }
    ElementsSameKeys(v, zs);
    SetKeysAgree(xs, zs, w.xs);
  }

  lemma {:induction false} ElementsSameKeys(v: Value, zs: seq<Value>)
    requires v.SetOf? && WellFormed(v) && |zs| == |v.xs|
    requires forall i | 0 <= i < |zs| :: WellFormed(zs[i])
    requires forall i | 0 <= i < |zs| :: Reordered(v.xs[i], zs[i])
    ensures Map(CanonKey, v.xs) == Map(CanonKey, zs)
    decreases v, 0, 0
  {
    forall i | 0 <= i < |zs|
      ensures CanonKey(v.xs[i]) == CanonKey(zs[i])
    {
      ReorderedSameKey(v.xs[i], zs[i]);
    }
  }

  lemma SetKeysAgree(xs: seq<Value>, zs: seq<Value>, ys: seq<Value>)
    requires Map(CanonKey, xs) == Map(CanonKey, zs) && multiset(zs) == multiset(ys)
    ensures CanonKey(SetOf(xs)) == CanonKey(SetOf(ys))
  {
    MapMultiset(CanonKey, zs, ys);
    var ks := SetKeys(xs);
    var ls := SetKeys(ys);
    SortedUnique(ks, ls);
  }

  lemma {:induction false} RecordSameKey(v: Value, w: Value)
    requires WellFormed(v) && WellFormed(w) && Reordered(v, w) && v.Record?
    ensures CanonKey(v) == CanonKey(w)
    decreases v, 0, 1
  {
    var fs := v.fields;
    var gs: seq<Field> :| multiset(gs) == multiset(w.fields) && |gs| == |fs| &&
      forall i | 0 <= i < |fs| :: fs[i].name == gs[i].name && Reordered(fs[i].value, gs[i].value);
    forall i | 0 <= i < |gs|
      ensures WellFormed(gs[i].value)
    {
      Shuffled(gs, w.fields, gs[i]);
    }
    FieldsSamePairs(v, gs);
    MapMultiset(CanonFieldPair, gs, w.fields);
    var ks := RecordKeys(fs);
    var ls := RecordKeys(w.fields);
    SortedUnique(ks, ls);
  }

  lemma {:induction false} FieldsSamePairs(v: Value, gs: seq<Field>)
    requires v.Record? && WellFormed(v) && |gs| == |v.fields|
    requires forall i | 0 <= i < |gs| :: WellFormed(gs[i].value)
    requires forall i | 0 <= i < |gs| :: v.fields[i].name == gs[i].name && Reordered(v.fields[i].value, gs[i].value)
    ensures Map(CanonFieldPair, v.fields) == Map(CanonFieldPair, gs)
    decreases v, 0, 0
  {
    forall i | 0 <= i < |gs|
      ensures CanonFieldPair(v.fields[i]) == CanonFieldPair(gs[i])
    {
      ReorderedSameKey(v.fields[i].value, gs[i].value);
    }
  }

  lemma {:induction false} FunctionSameKey(v: Value, w: Value)
    requires WellFormed(v) && WellFormed(w) && Reordered(v, w) && v.Function?
    ensures CanonKey(v) == CanonKey(w)
    decreases v, 0, 1
  {
    var es := v.entries;
    var gs: seq<Entry> :| multiset(gs) == multiset(w.entries) && |gs| == |es| &&
      forall i | 0 <= i < |es| :: Reordered(es[i].key, gs[i].key) && Reordered(es[i].value, gs[i].value);
    forall i | 0 <= i < |gs|
      ensures WellFormed(gs[i].key) && WellFormed(gs[i].value)
    {
      Shuffled(gs, w.entries, gs[i]);
    }
    EntriesSamePairs(v, gs);
    MapMultiset(CanonEntryPair, gs, w.entries);
    var ks := FunctionKeys(es);
    var ls := FunctionKeys(w.entries);
    SortedUnique(ks, ls);
  }

  lemma {:induction false} EntriesSamePairs(v: Value, gs: seq<Entry>)
    requires v.Function? && WellFormed(v) && |gs| == |v.entries|
    requires forall i | 0 <= i < |gs| :: WellFormed(gs[i].key) && WellFormed(gs[i].value)
    requires forall i | 0 <= i < |gs| ::
               Reordered(v.entries[i].key, gs[i].key) && Reordered(v.entries[i].value, gs[i].value)
    ensures Map(CanonEntryPair, v.entries) == Map(CanonEntryPair, gs)
    decreases v, 0, 0
  {
    forall i | 0 <= i < |gs|
      ensures CanonEntryPair(v.entries[i]) == CanonEntryPair(gs[i])
    {
      ReorderedSameKey(v.entries[i].key, gs[i].key);
      ReorderedSameKey(v.entries[i].value, gs[i].value);
    }
  }

  // ---------- and therefore the JSON ----------

  lemma {:induction false} CanonNamesOk(v: Value)
    requires WellFormed(v)
    ensures NamesOk(Canon(v))
    decreases v, 1
  {
    match v {
      case SetOf(xs) => SetNamesOk(v);
      case SeqOf(xs) =>
        CanonShape(v);
        forall i | 0 <= i < |xs| ensures NamesOk(Canon(xs[i])) { CanonNamesOk(xs[i]); }
      case Record(fs) =>
        CanonShape(v);
        MapTwice(NameKey, CanonField, NameKey, fs);
        forall i | 0 <= i < |fs| ensures NamesOk(Canon(fs[i].value)) { CanonNamesOk(fs[i].value); }
      case Function(es) => FunctionNamesOk(v);
      case _ =>
    }
  }

  lemma {:induction false} SetNamesOk(v: Value)
    requires WellFormed(v) && v.SetOf?
    ensures NamesOk(Canon(v))
    decreases v, 0
  {
    CanonShape(v);
    var cs := Map(Canon, v.xs);
    var ds := SortBy(cs, SortKey);
    SortedMembers(cs, SortKey);
    forall i | 0 <= i < |ds|
      ensures NamesOk(ds[i])
    {
      assert ds[i] in cs;
      var j :| 0 <= j < |cs| && cs[j] == ds[i];
      CanonNamesOk(v.xs[j]);
    }
  }

  lemma {:induction false} FunctionNamesOk(v: Value)
    requires WellFormed(v) && v.Function?
    ensures NamesOk(Canon(v))
    decreases v, 0
  {
    CanonShape(v);
    var cs := Map(CanonEntry, v.entries);
    var ds := SortBy(cs, EntryKey);
    SortedMembers(cs, EntryKey);
    forall i | 0 <= i < |ds|
      ensures NamesOk(ds[i].key) && NamesOk(ds[i].value)
    {
      assert ds[i] in cs;
      var j :| 0 <= j < |cs| && cs[j] == ds[i];
      CanonNamesOk(v.entries[j].key);
      CanonNamesOk(v.entries[j].value);
    }
  }

  /** Reordering what TLC prints, at any depth, leaves the canonical JSON unchanged. */
  lemma ReorderedSameJson(v: Value, w: Value, tags: Tags)
    requires WellFormed(v) && WellFormed(w) && Reordered(v, w)
    ensures ToJson(Canon(v), tags, false) == ToJson(Canon(w), tags, false)
  {
    ReorderedSameKey(v, w);
    KeyInjective(Canon(v), Canon(w));
    CanonNamesOk(v);
    CanonNamesOk(w);
    FieldOrderIrrelevant(Canon(v), tags, false);
    FieldOrderIrrelevant(Canon(w), tags, false);
  }

  // ---------- exactly when entry order does not matter ----------

  function First(pair: Key): Key {
    if pair.KTup? && |pair.ks| > 0 then pair.ks[0] else pair
  }

  lemma {:induction false} MatchingPairs(cs: seq<Entry>, k: Key)
    ensures Matching(Map(EntryPair, cs), First, k) == Map(EntryPair, Matching(cs, EntryKey, k))
  {
    if cs != [] {
      assert Map(EntryPair, cs)[1..] == Map(EntryPair, cs[1..]);
      MatchingPairs(cs[1..], k);
    }
  }

  /** The canonical key of a function lists the pairs of each argument in printing order. */
  lemma PairsInOrder(es: seq<Entry>, k: Key) returns (ks: seq<Key>)
    ensures CanonKey(Function(es)) == Tagged(6, KTup(ks))
    ensures Matching(ks, First, k) == Map(EntryPair, Matching(Map(CanonEntry, es), EntryKey, k))
  {
    var cs := Map(CanonEntry, es);
    CanonShape(Function(es));
    SortKeyShape(Function(SortBy(cs, EntryKey)));
    SortStable(cs, EntryKey, k);
    MatchingPairs(SortBy(cs, EntryKey), k);
    ks := Map(EntryPair, SortBy(cs, EntryKey));
  }

  lemma FirstMatch(a: Entry, rest: seq<Entry>)
    ensures var ms := Matching(Map(CanonEntry, [a] + rest), EntryKey, ArgumentKey(a));
            ms != [] && EntryPair(ms[0]) == CanonEntryPair(a)
  {
    assert Map(CanonEntry, [a] + rest)[0] == CanonEntry(a);
  }

  /** If swapping the first two entries of one argument leaves the key alone, their pairs are equal. */
  lemma SwapShows(a: Entry, b: Entry, rest: seq<Entry>)
    requires ArgumentKey(a) == ArgumentKey(b)
    requires CanonKey(Function([a] + ([b] + rest))) == CanonKey(Function([b] + ([a] + rest)))
    ensures CanonEntryPair(a) == CanonEntryPair(b)
  {
    var k := ArgumentKey(a);
    var ks := PairsInOrder([a] + ([b] + rest), k);
    var ls := PairsInOrder([b] + ([a] + rest), k);
    assert ks == ls;
    FirstMatch(a, [b] + rest);
    FirstMatch(b, [a] + rest);
  }

  ghost predicate EntryOrderIrrelevant(es: seq<Entry>) {
    forall gs | multiset(gs) == multiset(es) :: CanonKey(Function(gs)) == CanonKey(Function(es))
  }

  lemma TwoInFront(es: seq<Entry>, i: nat, j: nat) returns (rest: seq<Entry>)
    requires i < j < |es|
    ensures multiset([es[i]] + ([es[j]] + rest)) == multiset(es) == multiset([es[j]] + ([es[i]] + rest))
  {
    rest := es[..i] + es[i + 1..j] + es[j + 1..];
    assert es == es[..i] + [es[i]] + es[i + 1..j] + [es[j]] + es[j + 1..];
  }

  lemma ShuffledConsistent(es: seq<Entry>, gs: seq<Entry>)
    requires Consistent(es) && multiset(gs) == multiset(es)
    ensures Consistent(gs)
  {
    forall i, j | 0 <= i < j < |gs| && ArgumentKey(gs[i]) == ArgumentKey(gs[j])
      ensures CanonEntryPair(gs[i]) == CanonEntryPair(gs[j])
    {
      Shuffled(gs, es, gs[i]);
      Shuffled(gs, es, gs[j]);
    }
  }

  lemma ConsistentIsIrrelevant(es: seq<Entry>, gs: seq<Entry>)
    requires Consistent(es) && multiset(gs) == multiset(es)
    ensures CanonKey(Function(gs)) == CanonKey(Function(es))
  {
    ShuffledConsistent(es, gs);
    MapMultiset(CanonEntryPair, gs, es);
    var ks := FunctionKeys(es);
    var ls := FunctionKeys(gs);
    SortedUnique(ks, ls);
  }

  lemma IrrelevantIsConsistent(es: seq<Entry>, i: nat, j: nat)
    requires EntryOrderIrrelevant(es) && i < j < |es| && ArgumentKey(es[i]) == ArgumentKey(es[j])
    ensures CanonEntryPair(es[i]) == CanonEntryPair(es[j])
  {
    var rest := TwoInFront(es, i, j);
    SwapShows(es[i], es[j], rest);
  }

  /** The order of a function's entries is irrelevant exactly when a repeated argument repeats its value. */
  lemma EntryOrderIrrelevantIffConsistent(es: seq<Entry>)
    ensures EntryOrderIrrelevant(es) <==> Consistent(es)
  {
    if Consistent(es) {
      forall gs | multiset(gs) == multiset(es)
        ensures CanonKey(Function(gs)) == CanonKey(Function(es))
      {
        ConsistentIsIrrelevant(es, gs);
      }
    }
    if EntryOrderIrrelevant(es) {
      forall i, j | 0 <= i < j < |es| && ArgumentKey(es[i]) == ArgumentKey(es[j])
        ensures CanonEntryPair(es[i]) == CanonEntryPair(es[j])
      {
        IrrelevantIsConsistent(es, i, j);
      }
    }
  }

  /** It shows in the JSON: with a repeated argument the result can depend on the order. */
  lemma RepeatedArgumentMatters(tags: Tags)
    ensures var v := Function([Entry(Int(1), Int(2)), Entry(Int(1), Int(3))]);
            var w := Function([Entry(Int(1), Int(3)), Entry(Int(1), Int(2))]);
            Reordered(v, w) && ToJson(Canon(v), tags, false) != ToJson(Canon(w), tags, false)
  {
    var a, b := Entry(Int(1), Int(2)), Entry(Int(1), Int(3));
    SwapIsReordering(a, b);
    KeepsTies(a, b);
    KeepsTies(b, a);
    EntryOrderShows(a, b, tags);
  }

  lemma SwapIsReordering(a: Entry, b: Entry)
    requires a.key.Int? && a.value.Int? && b.key.Int? && b.value.Int?
    ensures Reordered(Function([a, b]), Function([b, a]))
  {
    var gs := [a, b];
    assert multiset(gs) == multiset([b, a]);
    assert forall i | 0 <= i < 2 :: Reordered(gs[i].key, gs[i].key) && Reordered(gs[i].value, gs[i].value);
  }

  lemma SortTies<T>(a: T, b: T, key: T -> Key)
    requires key(a) == key(b)
    ensures SortBy([a, b], key) == [a, b]
  {
    var one := [b];
    assert one[1..] == [];
    assert SortBy(one, key) == Insert(b, [], key) == [b];
    assert [a, b][1..] == one;
  }

  lemma KeepsTies(a: Entry, b: Entry)
    requires a.key == b.key && a.key.Int? && a.value.Int? && b.value.Int?
    ensures Canon(Function([a, b])) == Function([a, b])
  {
    CanonShape(Function([a, b]));
    assert Map(CanonEntry, [a, b]) == [a, b];
    SortTies(a, b, EntryKey);
  }

  lemma EntryOrderShows(a: Entry, b: Entry, tags: Tags)
    requires a.value.Int? && b.value.Int? && a.value != b.value
    ensures ToJson(Function([a, b]), tags, false) != ToJson(Function([b, a]), tags, false)
  {
    ToJsonShape(Function([a, b]), tags, false);
    ToJsonShape(Function([b, a]), tags, false);
    var j := EntryJson(tags, false);
    assert j(a).xs[1] != j(b).xs[1];
    assert Map(j, [a, b])[0] == j(a) && Map(j, [b, a])[0] == j(b);
  }
}
