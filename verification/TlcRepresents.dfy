/**
 What it means for a JSON to represent a value, said without computing one; the normaliser gives the
 one JSON that does, and values of one shape get different JSON exactly when they differ.
 */
module TlcRepresents {
  import opened TlcOrder
  import opened TlcCanonical
  import opened TlcJson
  import opened TlcReorder

  // ---------- representing ----------

  /** A value that normalisation does not reach is dumped as its tagged pair. */
  predicate Wrapped(j: Json, raw: bool, tag: string) {
    raw ==> j.JArr? && |j.xs| == 2 && j.xs[0] == JStr(tag)
  }

  function Inner(j: Json, raw: bool): Json
    requires raw ==> j.JArr? && |j.xs| == 2
  {
    if raw then j.xs[1] else j
  }

  /** The field that a dictionary built from these fields in order holds under its name. */
  predicate IsLast(fs: seq<Field>, i: nat)
    requires i < |fs|
  {
    forall k | i < k < |fs| :: fs[k].name != fs[i].name
  }

  /**
   Scalars stand for themselves, a mapped tag is an object with the one member `_variant`, list
   elements and function entries correspond in place, and object members correspond by name.
   */
  predicate Represents(v: Value, tags: Tags, raw: bool, j: Json) {
    match v
    case Bool(b) => j.JBool? && (j.b <==> b)
    case Int(n) => j.JInt? && j.n == n
    case Str(s) =>
      if !raw && s in tags then j.JObj? && j.fields.Keys == {"_variant"} && j.fields["_variant"] == JStr(tags[s])
      else j.JStr? && j.s == s
    case SetOf(xs) =>
      && Wrapped(j, raw, "__set__") && Inner(j, raw).JArr? && |Inner(j, raw).xs| == |xs|
      && forall i | 0 <= i < |xs| :: Represents(xs[i], tags, raw, Inner(j, raw).xs[i])
    case SeqOf(xs) =>
      && Wrapped(j, raw, "__seq__") && Inner(j, raw).JArr? && |Inner(j, raw).xs| == |xs|
      && forall i | 0 <= i < |xs| :: Represents(xs[i], tags, raw, Inner(j, raw).xs[i])
    case Record(fs) =>
      if !raw && |fs| == 1 && fs[0].name == "tag" then
        var t := fs[0].value;
        && j.JObj? && j.fields.Keys == {"_variant"}
        && if t.Str? && t.s in tags then j.fields["_variant"] == JStr(tags[t.s])
           else Represents(t, tags, true, j.fields["_variant"])
      else
        && Wrapped(j, raw, "__record__") && Inner(j, raw).JObj?
        && (forall name | name in Inner(j, raw).fields :: exists i | 0 <= i < |fs| :: fs[i].name == name)
        && forall i | 0 <= i < |fs| && IsLast(fs, i) ::
             && fs[i].name in Inner(j, raw).fields
             && Represents(fs[i].value, tags, raw, Inner(j, raw).fields[fs[i].name])
    case Function(es) =>
      && Wrapped(j, raw, "__map__") && Inner(j, raw).JArr? && |Inner(j, raw).xs| == |es|
      && forall i | 0 <= i < |es| ::
           var pair := Inner(j, raw).xs[i];
           && pair.JArr? && |pair.xs| == 2
           && Represents(es[i].key, tags, raw, pair.xs[0]) && Represents(es[i].value, tags, raw, pair.xs[1])
  }

  // ---------- the normaliser represents ----------

  lemma {:induction false} LastIndex(fs: seq<Field>, i: nat)
    requires i < |fs| && IsLast(fs, i)
    ensures fs[i].name in NamesOf(fs) && IndexOf(fs, fs[i].name) == i
  {
    assert fs[i] in fs;
    var last := |fs| - 1;
    if i < last {
      LastIndex(fs[..last], i);
    }
  }

  lemma {:induction false} ToJsonRepresents(v: Value, tags: Tags, raw: bool)
    ensures Represents(v, tags, raw, ToJson(v, tags, raw))
    decreases v, 1
  {
    ToJsonShape(v, tags, raw);
    match v {
      case SetOf(xs) => ElementsRepresent(v, tags, raw);
      case SeqOf(xs) => ElementsRepresent(v, tags, raw);
      case Record(fs) => RecordRepresents(v, tags, raw);
      case Function(es) => EntriesRepresent(v, tags, raw);
      case _ =>
    }
  }

  lemma {:induction false} ElementsRepresent(v: Value, tags: Tags, raw: bool)
    requires v.SetOf? || v.SeqOf?
    ensures Represents(v, tags, raw, ToJson(v, tags, raw))
    decreases v, 0
  {
    ToJsonShape(v, tags, raw);
    forall i | 0 <= i < |v.xs|
      ensures Represents(v.xs[i], tags, raw, Map(Jsonify(tags, raw), v.xs)[i])
    {
      ToJsonRepresents(v.xs[i], tags, raw);
    }
  }

  lemma {:induction false} RecordRepresents(v: Value, tags: Tags, raw: bool)
    requires v.Record?
    ensures Represents(v, tags, raw, ToJson(v, tags, raw))
    decreases v, 0
  {
    var fs := v.fields;
    if !raw && TagOnly(fs) {
      ToJsonRepresents(fs[0].value, tags, true);
    } else {
      ToJsonShape(v, tags, raw);
      forall i | 0 <= i < |fs| && IsLast(fs, i)
        ensures fs[i].name in ObjectOf(fs, tags, raw)
        ensures Represents(fs[i].value, tags, raw, ObjectOf(fs, tags, raw)[fs[i].name])
      {
        LastIndex(fs, i);
        ToJsonRepresents(fs[i].value, tags, raw);
      }
      forall name | name in ObjectOf(fs, tags, raw)
        ensures exists i | 0 <= i < |fs| :: fs[i].name == name
      {
        assert fs[IndexOf(fs, name)].name == name;
      }
    }
  }

  lemma {:induction false} EntriesRepresent(v: Value, tags: Tags, raw: bool)
    requires v.Function?
    ensures Represents(v, tags, raw, ToJson(v, tags, raw))
    decreases v, 0
  {
    ToJsonShape(v, tags, raw);
    forall i | 0 <= i < |v.entries|
      ensures var pair := Map(EntryJson(tags, raw), v.entries)[i];
              && pair.JArr? && |pair.xs| == 2
              && Represents(v.entries[i].key, tags, raw, pair.xs[0])
              && Represents(v.entries[i].value, tags, raw, pair.xs[1])
    {
      ToJsonRepresents(v.entries[i].key, tags, raw);
      ToJsonRepresents(v.entries[i].value, tags, raw);
    }
  }

  // ---------- nothing else does ----------

  lemma {:induction false} RepresentsOne(v: Value, tags: Tags, raw: bool, j: Json, k: Json)
    requires Represents(v, tags, raw, j) && Represents(v, tags, raw, k)
    ensures j == k
    decreases v, 1
  {
    match v {
      case SetOf(xs) => ElementsOne(v, tags, raw, j, k);
      case SeqOf(xs) => ElementsOne(v, tags, raw, j, k);
      case Record(fs) => RecordOne(v, tags, raw, j, k);
      case Function(es) => EntriesOne(v, tags, raw, j, k);
      case Str(s) =>
        if !raw && s in tags {
          assert j.fields == map["_variant" := JStr(tags[s])] == k.fields;
        }
      case _ =>
    }
  }

  lemma InnerOne(j: Json, k: Json, raw: bool, tag: string)
    requires Wrapped(j, raw, tag) && Wrapped(k, raw, tag) && Inner(j, raw) == Inner(k, raw)
    ensures j == k
  {
    if raw {
      assert j.xs == [j.xs[0], j.xs[1]] && k.xs == [k.xs[0], k.xs[1]];
    }
  }

  lemma {:induction false} ElementsOne(v: Value, tags: Tags, raw: bool, j: Json, k: Json)
    requires (v.SetOf? || v.SeqOf?) && Represents(v, tags, raw, j) && Represents(v, tags, raw, k)
    ensures j == k
    decreases v, 0
  {
    var xs, js, ks := v.xs, Inner(j, raw).xs, Inner(k, raw).xs;
    forall i | 0 <= i < |xs|
      ensures js[i] == ks[i]
    {
      RepresentsOne(xs[i], tags, raw, js[i], ks[i]);
    }
    assert js == ks;
    InnerOne(j, k, raw, if v.SetOf? then "__set__" else "__seq__");
  }

  lemma {:induction false} EntriesOne(v: Value, tags: Tags, raw: bool, j: Json, k: Json)
    requires v.Function? && Represents(v, tags, raw, j) && Represents(v, tags, raw, k)
    ensures j == k
    decreases v, 0
  {
    var es, js, ks := v.entries, Inner(j, raw).xs, Inner(k, raw).xs;
    forall i | 0 <= i < |es|
      ensures js[i] == ks[i]
    {
      RepresentsOne(es[i].key, tags, raw, js[i].xs[0], ks[i].xs[0]);
      RepresentsOne(es[i].value, tags, raw, js[i].xs[1], ks[i].xs[1]);
      assert js[i].xs == [js[i].xs[0], js[i].xs[1]] && ks[i].xs == [ks[i].xs[0], ks[i].xs[1]];
    }
    assert js == ks;
    InnerOne(j, k, raw, "__map__");
  }

  /** Every name has a last field. */
  lemma {:induction false} LastOf(fs: seq<Field>, i: nat) returns (l: nat)
    requires i < |fs|
    ensures l < |fs| && fs[l].name == fs[i].name && IsLast(fs, l)
    decreases |fs| - i
  {
    if IsLast(fs, i) {
      l := i;
    } else {
      var k :| i < k < |fs| && fs[k].name == fs[i].name;
      l := LastOf(fs, k);
    }
  }

  lemma {:induction false} RecordOne(v: Value, tags: Tags, raw: bool, j: Json, k: Json)
    requires v.Record? && Represents(v, tags, raw, j) && Represents(v, tags, raw, k)
    ensures j == k
    decreases v, 0
  {
    var fs := v.fields;
    if !raw && |fs| == 1 && fs[0].name == "tag" {
      var t := fs[0].value;
      if !(t.Str? && t.s in tags) {
        RepresentsOne(t, tags, true, j.fields["_variant"], k.fields["_variant"]);
      }
      assert j.fields == map["_variant" := j.fields["_variant"]] == k.fields;
    } else {
      MembersOne(v, tags, raw, j, k);
      MembersOne(v, tags, raw, k, j);
      SameMembers(Inner(j, raw).fields, Inner(k, raw).fields);
      InnerOne(j, k, raw, "__record__");
    }
  }

  lemma {:induction false} MembersOne(v: Value, tags: Tags, raw: bool, j: Json, k: Json)
    requires v.Record? && Represents(v, tags, raw, j) && Represents(v, tags, raw, k)
    requires !(!raw && |v.fields| == 1 && v.fields[0].name == "tag")
    ensures forall name | name in Inner(j, raw).fields ::
              name in Inner(k, raw).fields && Inner(j, raw).fields[name] == Inner(k, raw).fields[name]
    decreases v, 0, 0
  {
    var fs := v.fields;
    forall name | name in Inner(j, raw).fields
      ensures name in Inner(k, raw).fields && Inner(j, raw).fields[name] == Inner(k, raw).fields[name]
    {
      var i :| 0 <= i < |fs| && fs[i].name == name;
      var l := LastOf(fs, i);
      RepresentsOne(fs[l].value, tags, raw, Inner(j, raw).fields[name], Inner(k, raw).fields[name]);
    }
  }

  lemma SameMembers<K, J>(m: map<K, J>, n: map<K, J>)
    requires forall k | k in m :: k in n && m[k] == n[k]
    requires forall k | k in n :: k in m && m[k] == n[k]
    ensures m == n
  {
  }

  /** The normaliser gives the one JSON that represents the value. */
  lemma OnlyToJsonRepresents(v: Value, tags: Tags, raw: bool, j: Json)
    ensures Represents(v, tags, raw, j) <==> j == ToJson(v, tags, raw)
  {
    ToJsonRepresents(v, tags, raw);
    if Represents(v, tags, raw, j) {
      RepresentsOne(v, tags, raw, j, ToJson(v, tags, raw));
    }
  }

  // ---------- different values of one shape ----------

  /** Corresponding parts are of one kind, and no record is a bare tag. */
  predicate OneShape(v: Value, w: Value) {
    match v
    case Bool(_) => w.Bool?
    case Int(_) => w.Int?
    case Str(_) => w.Str?
    case SetOf(xs) => w.SetOf? && forall i | 0 <= i < |xs| && i < |w.xs| :: OneShape(xs[i], w.xs[i])
    case SeqOf(xs) => w.SeqOf? && forall i | 0 <= i < |xs| && i < |w.xs| :: OneShape(xs[i], w.xs[i])
    case Record(fs) =>
      && w.Record? && !TagOnly(fs) && !TagOnly(w.fields)
      && forall i, k | 0 <= i < |fs| && 0 <= k < |w.fields| && fs[i].name == w.fields[k].name ::
           OneShape(fs[i].value, w.fields[k].value)
    case Function(es) =>
      w.Function? && forall i | 0 <= i < |es| && i < |w.entries| ::
        OneShape(es[i].key, w.entries[i].key) && OneShape(es[i].value, w.entries[i].value)
  }

  predicate Injective(tags: Tags) {
    forall s, t | s in tags && t in tags && tags[s] == tags[t] :: s == t
  }

  lemma {:induction false} SameJsonSameValue(v: Value, w: Value, tags: Tags)
    requires NamesOk(v) && NamesOk(w) && OneShape(v, w) && Injective(tags)
    requires ToJson(v, tags, false) == ToJson(w, tags, false)
    ensures FieldSorted(v) == FieldSorted(w)
    decreases v, 1
  {
    match v {
      case SetOf(xs) => ElementsSame(v, w, tags);
      case SeqOf(xs) => ElementsSame(v, w, tags);
      case Record(fs) => RecordsSame(v, w, tags);
      case Function(es) => EntriesSame(v, w, tags);
      case Str(s) =>
        if s in tags && w.s in tags {
          assert Variant(JStr(tags[s])).fields["_variant"] == Variant(JStr(tags[w.s])).fields["_variant"];
        }
      case _ =>
    }
  }

  lemma {:induction false} ElementsSame(v: Value, w: Value, tags: Tags)
    requires (v.SetOf? && w.SetOf?) || (v.SeqOf? && w.SeqOf?)
    requires NamesOk(v) && NamesOk(w) && OneShape(v, w) && Injective(tags)
    requires ToJson(v, tags, false) == ToJson(w, tags, false)
    ensures FieldSorted(v) == FieldSorted(w)
    decreases v, 0
  {
    ToJsonShape(v, tags, false);
    ToJsonShape(w, tags, false);
    FieldSortedShape(v);
    FieldSortedShape(w);
    var js, ks := Map(Jsonify(tags, false), v.xs), Map(Jsonify(tags, false), w.xs);
    assert js == ks;
    forall i | 0 <= i < |v.xs|
      ensures FieldSorted(v.xs[i]) == FieldSorted(w.xs[i])
    {
      assert js[i] == ks[i];
      SameJsonSameValue(v.xs[i], w.xs[i], tags);
    }
    assert Map(FieldSorted, v.xs) == Map(FieldSorted, w.xs);
  }

  lemma {:induction false} EntriesSame(v: Value, w: Value, tags: Tags)
    requires v.Function? && w.Function? && NamesOk(v) && NamesOk(w) && OneShape(v, w) && Injective(tags)
    requires ToJson(v, tags, false) == ToJson(w, tags, false)
    ensures FieldSorted(v) == FieldSorted(w)
    decreases v, 0
  {
    ToJsonShape(v, tags, false);
    ToJsonShape(w, tags, false);
    FieldSortedShape(v);
    FieldSortedShape(w);
    var es, gs := v.entries, w.entries;
    var js, ks := Map(EntryJson(tags, false), es), Map(EntryJson(tags, false), gs);
    assert js == ks;
    forall i | 0 <= i < |es|
      ensures SortedEntry(es[i]) == SortedEntry(gs[i])
    {
      assert js[i].xs[0] == ks[i].xs[0] && js[i].xs[1] == ks[i].xs[1];
      SameJsonSameValue(es[i].key, gs[i].key, tags);
      SameJsonSameValue(es[i].value, gs[i].value, tags);
    }
    assert Map(SortedEntry, es) == Map(SortedEntry, gs);
  }

  /** Each field of one record has a field of the other with the same name and the same value. */
  lemma {:induction false} FieldsFound(v: Value, w: Value, tags: Tags)
    requires v.Record? && w.Record? && NamesOk(v) && NamesOk(w) && OneShape(v, w) && Injective(tags)
    requires ObjectOf(v.fields, tags, false) == ObjectOf(w.fields, tags, false)
    ensures forall f | f in v.fields :: exists g | g in w.fields :: FieldPair(f) == FieldPair(g)
    ensures forall g | g in w.fields :: exists f | f in v.fields :: FieldPair(f) == FieldPair(g)
    decreases v, 0, 0
  {
    var fs, gs := v.fields, w.fields;
    var fields := ObjectOf(fs, tags, false);
    forall name | name in fields
      ensures name in NamesOf(fs) && name in NamesOf(gs)
      ensures FieldPair(fs[IndexOf(fs, name)]) == FieldPair(gs[IndexOf(gs, name)])
    {
      assert name in ObjectOf(gs, tags, false);
      var i, k := IndexOf(fs, name), IndexOf(gs, name);
      SameJsonSameValue(fs[i].value, gs[k].value, tags);
      KeyInjective(fs[i].value, gs[k].value);
    }
    forall f | f in fs ensures exists g | g in gs :: FieldPair(f) == FieldPair(g) {
      FieldByName(fs, f);
      assert f.name in fields;
      assert gs[IndexOf(gs, f.name)] in gs;
    }
    forall g | g in gs ensures exists f | f in fs :: FieldPair(f) == FieldPair(g) {
      FieldByName(gs, g);
      assert g.name in ObjectOf(gs, tags, false);
      assert fs[IndexOf(fs, g.name)] in fs;
    }
  }

  lemma PairsNoDup(fs: seq<Field>)
    requires DistinctNames(fs)
    ensures NoDup(Map(FieldPair, fs))
  {
    var ks := Map(FieldPair, fs);
    forall i, k | 0 <= i < k < |ks|
      ensures ks[i] != ks[k]
    {
      NoDupDistinct(Map(NameKey, fs), i, k);
      assert ks[i].ks[0] != ks[k].ks[0];
    }
    DistinctNoDup(ks);
  }

  lemma {:induction false} DistinctNoDup(ks: seq<Key>)
    requires forall i, k | 0 <= i < k < |ks| :: ks[i] != ks[k]
    ensures NoDup(ks)
  {
    if ks != [] {
      DistinctNoDup(ks[1..]);
      assert ks == [ks[0]] + ks[1..];
      assert multiset(ks) == multiset{ks[0]} + multiset(ks[1..]);
      assert ks[0] !in ks[1..];
      forall k | k in ks
        ensures multiset(ks)[k] == 1
      {
        assert k == ks[0] || k in ks[1..];
      }
    }
  }

  lemma NoDupSameSet(ks: seq<Key>, ls: seq<Key>)
    requires NoDup(ks) && NoDup(ls) && forall k :: k in ks <==> k in ls
    ensures multiset(ks) == multiset(ls)
  {
    forall k
      ensures multiset(ks)[k] == multiset(ls)[k]
    {
      if k in ks {
        assert multiset(ks)[k] == 1 == multiset(ls)[k];
      } else {
        assert k !in multiset(ks) && k !in multiset(ls);
      }
    }
  }

  lemma {:induction false} RecordsSame(v: Value, w: Value, tags: Tags)
    requires v.Record? && w.Record? && NamesOk(v) && NamesOk(w) && OneShape(v, w) && Injective(tags)
    requires ToJson(v, tags, false) == ToJson(w, tags, false)
    ensures FieldSorted(v) == FieldSorted(w)
    decreases v, 0, 1
  {
    ToJsonShape(v, tags, false);
    ToJsonShape(w, tags, false);
    FieldsFound(v, w, tags);
    SamePairsSameRecord(v.fields, w.fields);
    KeyInjective(v, w);
  }

  lemma SamePairsSameRecord(fs: seq<Field>, gs: seq<Field>)
    requires DistinctNames(fs) && DistinctNames(gs)
    requires forall f | f in fs :: exists g | g in gs :: FieldPair(f) == FieldPair(g)
    requires forall g | g in gs :: exists f | f in fs :: FieldPair(f) == FieldPair(g)
    ensures SortKey(Record(fs)) == SortKey(Record(gs))
  {
    PairsNoDup(fs);
    PairsNoDup(gs);
    SamePairSet(fs, gs);
    SamePairSet(gs, fs);
    NoDupSameSet(Map(FieldPair, fs), Map(FieldPair, gs));
    PairsSorted(fs);
    PairsSorted(gs);
    SortedUnique(Map(FieldPair, SortBy(fs, NameKey)), Map(FieldPair, SortBy(gs, NameKey)));
    SortKeyShape(Record(fs));
    SortKeyShape(Record(gs));
  }

  lemma SamePairSet(fs: seq<Field>, gs: seq<Field>)
    requires forall f | f in fs :: exists g | g in gs :: FieldPair(f) == FieldPair(g)
    ensures forall k | k in Map(FieldPair, fs) :: k in Map(FieldPair, gs)
  {
    forall k | k in Map(FieldPair, fs)
      ensures k in Map(FieldPair, gs)
    {
      var i :| 0 <= i < |fs| && Map(FieldPair, fs)[i] == k;
      assert fs[i] in fs;
      var g :| g in gs && FieldPair(fs[i]) == FieldPair(g);
      var m :| 0 <= m < |gs| && gs[m] == g;
      assert Map(FieldPair, gs)[m] == k;
    }
  }

  lemma PairsSorted(fs: seq<Field>)
    requires DistinctNames(fs)
    ensures Sorted(Map(FieldPair, SortBy(fs, NameKey)))
    ensures multiset(Map(FieldPair, SortBy(fs, NameKey))) == multiset(Map(FieldPair, fs))
  {
    NamesDetermineFields(fs);
    SortedPairs(fs, NameKey, FieldPair);
    SortShuffles(fs, NameKey);
    MapMultiset(FieldPair, SortBy(fs, NameKey), fs);
  }

  /** Values of one shape have different JSON exactly when they differ by more than the order of fields. */
  lemma DifferentJson(v: Value, w: Value, tags: Tags)
    requires NamesOk(v) && NamesOk(w) && OneShape(v, w) && Injective(tags)
    ensures ToJson(v, tags, false) == ToJson(w, tags, false) <==> FieldSorted(v) == FieldSorted(w)
  {
    FieldOrderIrrelevant(v, tags, false);
    FieldOrderIrrelevant(w, tags, false);
    if ToJson(v, tags, false) == ToJson(w, tags, false) {
      SameJsonSameValue(v, w, tags);
    }
  }

  ghost predicate TellsApart(tags: Tags) {
    forall v, w | NamesOk(v) && NamesOk(w) && OneShape(v, w) && ToJson(v, tags, false) == ToJson(w, tags, false) ::
      FieldSorted(v) == FieldSorted(w)
  }

  /** That different values of one shape get different JSON holds exactly for tag maps that merge no tags. */
  lemma TellsApartIffInjective(tags: Tags)
    ensures TellsApart(tags) <==> Injective(tags)
  {
    if Injective(tags) {
      forall v, w | NamesOk(v) && NamesOk(w) && OneShape(v, w) && ToJson(v, tags, false) == ToJson(w, tags, false)
        ensures FieldSorted(v) == FieldSorted(w)
      {
        SameJsonSameValue(v, w, tags);
      }
    } else {
      var s, t :| s in tags && t in tags && tags[s] == tags[t] && s != t;
      assert ToJson(Str(s), tags, false) == ToJson(Str(t), tags, false);
      assert NamesOk(Str(s)) && NamesOk(Str(t)) && OneShape(Str(s), Str(t));
      assert FieldSorted(Str(s)) != FieldSorted(Str(t));
    }
  }
}
