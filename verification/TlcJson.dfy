/**
 JSON normalisation of parsed values, and its independence from the order in which TLC prints
 set elements, function entries and record fields.
 */
module TlcJson {
  import opened TlcOrder
  import opened TlcCanonical

  datatype Json =
    | JBool(b: bool)
    | JInt(n: int)
    | JStr(s: string)
    | JArr(xs: seq<Json>)
    | JObj(fields: map<string, Json>)

  type Tags = map<string, string>

  function Variant(j: Json): Json { JObj(map["_variant" := j]) }

  function NamesOf(fs: seq<Field>): set<string> {
    set f | f in fs :: f.name
  }

  /** Where a dictionary finds the name: at its last assignment. */
  function IndexOf(fs: seq<Field>, name: string): (i: nat)
    requires name in NamesOf(fs)
    ensures i < |fs| && fs[i].name == name
  {
    var last := |fs| - 1;
    if fs[last].name == name then last
    else
      assert name in NamesOf(fs[..last]) by {
        var f :| f in fs && f.name == name;
        assert f in fs[..last];
      }
      IndexOf(fs[..last], name)
  }

  predicate TagOnly(fs: seq<Field>) {
    |fs| == 1 && fs[0].name == "tag"
  }

  /** `raw` is how a value is dumped when normalisation does not reach it: as its tagged pair. */
  function ToJson(v: Value, tags: Tags, raw: bool): Json
    decreases v, raw
  {
    match v
    case Bool(b) => JBool(b)
    case Int(n) => JInt(n)
    case Str(s) => if !raw && s in tags then Variant(JStr(tags[s])) else JStr(s)
    case SetOf(xs) => Dumped(raw, "__set__", JArr(seq(|xs|, i requires 0 <= i < |xs| => ToJson(xs[i], tags, raw))))
    case SeqOf(xs) => Dumped(raw, "__seq__", JArr(seq(|xs|, i requires 0 <= i < |xs| => ToJson(xs[i], tags, raw))))
    case Record(fs) =>
      if !raw && TagOnly(fs) then
        var t := fs[0].value;
        Variant(if t.Str? && t.s in tags then JStr(tags[t.s]) else ToJson(t, tags, true))
      else
        var members := map name | name in NamesOf(fs) :: ToJson(fs[IndexOf(fs, name)].value, tags, raw);
        Dumped(raw, "__record__", JObj(members))
    case Function(es) =>
      Dumped(raw, "__map__", JArr(seq(|es|, i requires 0 <= i < |es| =>
        JArr([ToJson(es[i].key, tags, raw), ToJson(es[i].value, tags, raw)]))))
  }

  function Dumped(raw: bool, tag: string, j: Json): Json {
    if raw then JArr([JStr(tag), j]) else j
  }

  function Jsonify(tags: Tags, raw: bool): Value -> Json {
    (v: Value) => ToJson(v, tags, raw)
  }

  function EntryJson(tags: Tags, raw: bool): Entry -> Json {
    (e: Entry) => JArr([ToJson(e.key, tags, raw), ToJson(e.value, tags, raw)])
  }

  function ObjectOf(fs: seq<Field>, tags: Tags, raw: bool): map<string, Json> {
    map name | name in NamesOf(fs) :: ToJson(fs[IndexOf(fs, name)].value, tags, raw)
  }

  lemma ToJsonShape(v: Value, tags: Tags, raw: bool)
    ensures v.SetOf? ==> ToJson(v, tags, raw) == Dumped(raw, "__set__", JArr(Map(Jsonify(tags, raw), v.xs)))
    ensures v.SeqOf? ==> ToJson(v, tags, raw) == Dumped(raw, "__seq__", JArr(Map(Jsonify(tags, raw), v.xs)))
    ensures v.Function? ==> ToJson(v, tags, raw) == Dumped(raw, "__map__", JArr(Map(EntryJson(tags, raw), v.entries)))
    ensures v.Record? && (raw || !TagOnly(v.fields)) ==>
              ToJson(v, tags, raw) == Dumped(raw, "__record__", JObj(ObjectOf(v.fields, tags, raw)))
  {
    match v
    case SetOf(xs) =>
      assert seq(|xs|, i requires 0 <= i < |xs| => ToJson(xs[i], tags, raw)) == Map(Jsonify(tags, raw), xs);
    case SeqOf(xs) =>
      assert seq(|xs|, i requires 0 <= i < |xs| => ToJson(xs[i], tags, raw)) == Map(Jsonify(tags, raw), xs);
    case Function(es) =>
      assert seq(|es|, i requires 0 <= i < |es| => JArr([ToJson(es[i].key, tags, raw), ToJson(es[i].value, tags, raw)]))
          == Map(EntryJson(tags, raw), es);
    case _ =>
  }

  // ---------- field order does not matter to the JSON ----------

  predicate NoDup(ks: seq<Key>) {
    forall k | k in ks :: multiset(ks)[k] == 1
  }

  predicate DistinctNames(fs: seq<Field>) {
    NoDup(Map(NameKey, fs))
  }

  predicate NamesOk(v: Value) {
    match v
    case SetOf(xs) => forall i | 0 <= i < |xs| :: NamesOk(xs[i])
    case SeqOf(xs) => forall i | 0 <= i < |xs| :: NamesOk(xs[i])
    case Record(fs) => DistinctNames(fs) && forall i | 0 <= i < |fs| :: NamesOk(fs[i].value)
    case Function(es) => forall i | 0 <= i < |es| :: NamesOk(es[i].key) && NamesOk(es[i].value)
    case _ => true
  }

  lemma NoDupDistinct(ks: seq<Key>, i: nat, j: nat)
    requires NoDup(ks) && i < j < |ks|
    ensures ks[i] != ks[j]
  {
    assert ks == ks[..j] + ks[j..];
    assert ks[i] in ks[..j] && ks[j] in ks[j..];
    assert multiset(ks) == multiset(ks[..j]) + multiset(ks[j..]);
    assert ks[j] in ks;
  }

  lemma NoDupShuffled(ks: seq<Key>, ls: seq<Key>)
    requires NoDup(ks) && multiset(ks) == multiset(ls)
    ensures NoDup(ls)
  {
    forall k | k in ls
      ensures multiset(ls)[k] == 1
    {
      assert k in multiset(ks);
      assert k in ks;
    }
  }

  lemma FieldByName(fs: seq<Field>, f: Field)
    requires DistinctNames(fs) && f in fs
    ensures f.name in NamesOf(fs) && fs[IndexOf(fs, f.name)] == f
  {
    var i :| 0 <= i < |fs| && fs[i] == f;
    var j := IndexOf(fs, f.name);
    if i < j {
      NoDupDistinct(Map(NameKey, fs), i, j);
    } else if j < i {
      NoDupDistinct(Map(NameKey, fs), j, i);
    }
  }

  /** The fields of a sorted record: same names, each with its own value sorted. */
  lemma SortedFieldByName(fs: seq<Field>, name: string)
    requires DistinctNames(fs) && name in NamesOf(fs)
    ensures var hs := Map(SortedField, SortBy(fs, NameKey));
            name in NamesOf(hs) && hs[IndexOf(hs, name)].value == FieldSorted(fs[IndexOf(fs, name)].value)
  {
    var gs := SortBy(fs, NameKey);
    var hs := Map(SortedField, gs);
    SortedMembers(fs, NameKey);
    var f := fs[IndexOf(fs, name)];
    assert f in gs;
    var j :| 0 <= j < |gs| && gs[j] == f;
    assert hs[j] == SortedField(f) && hs[j] in hs;
    assert Map(NameKey, hs) == Map(NameKey, gs);
    SortShuffles(fs, NameKey);
    MapMultiset(NameKey, gs, fs);
    NoDupShuffled(Map(NameKey, fs), Map(NameKey, hs));
    FieldByName(hs, hs[j]);
  }

  lemma SortedNames(fs: seq<Field>)
    ensures NamesOf(Map(SortedField, SortBy(fs, NameKey))) == NamesOf(fs)
  {
    var gs := SortBy(fs, NameKey);
    var hs := Map(SortedField, gs);
    SortedMembers(fs, NameKey);
    forall name | name in NamesOf(fs)
      ensures name in NamesOf(hs)
    {
      var f :| f in fs && f.name == name;
      assert f in gs;
      var j :| 0 <= j < |gs| && gs[j] == f;
      assert hs[j] in hs;
    }
    forall name | name in NamesOf(hs)
      ensures name in NamesOf(fs)
    {
      var h :| h in hs && h.name == name;
      var j :| 0 <= j < |hs| && hs[j] == h;
      assert gs[j] in gs;
    }
  }

  /** The JSON of a value does not depend on the order of record fields. */
  lemma {:induction false} FieldOrderIrrelevant(v: Value, tags: Tags, raw: bool)
    requires NamesOk(v)
    ensures ToJson(FieldSorted(v), tags, raw) == ToJson(v, tags, raw)
    decreases v, 1, raw
  {
    match v {
      case SetOf(xs) => ElementsIrrelevant(v, tags, raw);
      case SeqOf(xs) => ElementsIrrelevant(v, tags, raw);
      case Record(fs) => RecordIrrelevant(v, tags, raw);
      case Function(es) => EntriesIrrelevant(v, tags, raw);
      case _ =>
    }
  }

  lemma {:induction false} ElementsIrrelevant(v: Value, tags: Tags, raw: bool)
    requires NamesOk(v) && (v.SetOf? || v.SeqOf?)
    ensures ToJson(FieldSorted(v), tags, raw) == ToJson(v, tags, raw)
    decreases v, 0, raw
  {
    FieldSortedShape(v);
    ToJsonShape(v, tags, raw);
    ToJsonShape(FieldSorted(v), tags, raw);
    forall i | 0 <= i < |v.xs|
      ensures ToJson(FieldSorted(v.xs[i]), tags, raw) == ToJson(v.xs[i], tags, raw)
    {
      FieldOrderIrrelevant(v.xs[i], tags, raw);
    }
    assert Map(Jsonify(tags, raw), FieldSorted(v).xs) == Map(Jsonify(tags, raw), v.xs);
  }

  lemma {:induction false} EntriesIrrelevant(v: Value, tags: Tags, raw: bool)
    requires NamesOk(v) && v.Function?
    ensures ToJson(FieldSorted(v), tags, raw) == ToJson(v, tags, raw)
    decreases v, 0, raw
  {
    FieldSortedShape(v);
    ToJsonShape(v, tags, raw);
    ToJsonShape(FieldSorted(v), tags, raw);
    var es := v.entries;
    forall i | 0 <= i < |es|
      ensures EntryJson(tags, raw)(SortedEntry(es[i])) == EntryJson(tags, raw)(es[i])
    {
      FieldOrderIrrelevant(es[i].key, tags, raw);
      FieldOrderIrrelevant(es[i].value, tags, raw);
    }
    assert Map(EntryJson(tags, raw), FieldSorted(v).entries) == Map(EntryJson(tags, raw), es);
  }

  lemma {:induction false} RecordIrrelevant(v: Value, tags: Tags, raw: bool)
    requires NamesOk(v) && v.Record?
    ensures ToJson(FieldSorted(v), tags, raw) == ToJson(v, tags, raw)
    decreases v, 0, raw, 1
  {
    FieldSortedShape(v);
    SortedMembers(v.fields, NameKey);
    if !raw && TagOnly(v.fields) {
      TagOnlyIrrelevant(v, tags);
    } else {
      ToJsonShape(v, tags, raw);
      ToJsonShape(FieldSorted(v), tags, raw);
      assert SortBy(v.fields, NameKey) != [] ==> SortBy(v.fields, NameKey)[0] in v.fields;
      ObjectIrrelevant(v, tags, raw);
    }
  }

  lemma {:induction false} TagOnlyIrrelevant(v: Value, tags: Tags)
    requires NamesOk(v) && v.Record? && TagOnly(v.fields)
    ensures ToJson(FieldSorted(v), tags, false) == ToJson(v, tags, false)
    decreases v, 0, false, 0
  {
    FieldSortedShape(v);
    var f := v.fields[0];
    assert v.fields == [f];
    assert SortBy(v.fields, NameKey) == [f] by {
      assert v.fields[1..] == [];
    }
    FieldOrderIrrelevant(f.value, tags, true);
  }

  lemma {:induction false} ObjectIrrelevant(v: Value, tags: Tags, raw: bool)
    requires NamesOk(v) && v.Record?
    ensures ObjectOf(Map(SortedField, SortBy(v.fields, NameKey)), tags, raw) == ObjectOf(v.fields, tags, raw)
    decreases v, 0, raw, 0
  {
    var fs := v.fields;
    var hs := Map(SortedField, SortBy(fs, NameKey));
    SortedNames(fs);
    forall name | name in NamesOf(fs)
      ensures name in NamesOf(hs)
      ensures ToJson(hs[IndexOf(hs, name)].value, tags, raw) == ToJson(fs[IndexOf(fs, name)].value, tags, raw)
    {
      SortedFieldByName(fs, name);
      FieldOrderIrrelevant(fs[IndexOf(fs, name)].value, tags, raw);
    }
  }
}
