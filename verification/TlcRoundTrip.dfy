/** Parsing inverts printing, up to canonical form, and all printings of a value give one JSON. */
module TlcRoundTrip {
  import opened TlcOrder
  import opened TlcCanonical
  import opened TlcJson
  import opened TlcReorder
  import opened TlcParser
  import opened TlcPrinting

  // ---------- the sense of a text is its canonical meaning ----------

  lemma {:induction false} SenseIs(t: Text)
    ensures Sense(t) == Canon(Meaning(t))
    decreases t, 1
  {
    CanonShape(Meaning(t));
    match t {
      case TSet(items, _) => SensesAre(items);
      case TSeq(items, _) => SensesAre(items);
      case TRecord(fs, _) =>
        FieldSensesAre(fs);
        PutAllCanon([], FieldMeanings(fs));
        assert Map(CanonField, []) == [];
      case TFunction(es) => EntrySensesAre(es);
      case TParen(inner) => SenseIs(inner.text);
      case _ =>
    }
  }

  lemma {:induction false} PutCanon(acc: seq<Field>, name: string, v: Value)
    ensures Map(CanonField, Put(acc, name, v)) == Put(Map(CanonField, acc), name, Canon(v))
  {
    if acc != [] {
      PutCanon(acc[1..], name, v);
      assert Map(CanonField, acc)[1..] == Map(CanonField, acc[1..]);
      MapConcat(CanonField, [Field(name, v)], acc[1..]);
      MapConcat(CanonField, [acc[0]], Put(acc[1..], name, v));
    }
  }

  lemma {:induction false} PutAllCanon(acc: seq<Field>, fs: seq<Field>)
    ensures Map(CanonField, PutAll(acc, fs)) == PutAll(Map(CanonField, acc), Map(CanonField, fs))
    decreases fs
  {
    if fs != [] {
      PutCanon(acc, fs[0].name, fs[0].value);
      PutAllCanon(Put(acc, fs[0].name, fs[0].value), fs[1..]);
      assert Map(CanonField, fs)[1..] == Map(CanonField, fs[1..]);
    }
  }

  lemma {:induction false} SensesAre(items: seq<Item>)
    ensures Senses(items) == Map(Canon, Meanings(items))
    decreases items, 0
  {
    if items != [] {
      SenseIs(items[0].text);
      SensesAre(items[1..]);
      MapConcat(Canon, [Meaning(items[0].text)], Meanings(items[1..]));
    }
  }

  lemma {:induction false} FieldSensesAre(fs: seq<TField>)
    ensures FieldSenses(fs) == Map(CanonField, FieldMeanings(fs))
    decreases fs, 0
  {
    if fs != [] {
      SenseIs(fs[0].item.text);
      FieldSensesAre(fs[1..]);
      MapConcat(CanonField, [Field(fs[0].name, Meaning(fs[0].item.text))], FieldMeanings(fs[1..]));
    }
  }

  lemma {:induction false} EntrySensesAre(es: seq<TEntry>)
    ensures EntrySenses(es) == Map(CanonEntry, EntryMeanings(es))
    decreases es, 0
  {
    if es != [] {
      var e := es[0];
      assert e.key < e && e.value < e && e.key.text < e.key && e.value.text < e.value;
      SenseIs(e.key.text);
      SenseIs(e.value.text);
      EntrySensesAre(es[1..]);
      MapConcat(CanonEntry, [Entry(Meaning(e.key.text), Meaning(e.value.text))], EntryMeanings(es[1..]));
    }
  }

  /** Parsing a printed value, in any text that does not continue it, gives its canonical form and where it ends. */
  lemma ParseInvertsPrint(s: string, pos: nat, t: Text)
    requires TextOk(t) && At(s, pos, Print(t)) && Ends(t, s, pos + |Print(t)|)
    ensures ParseValue(s, pos) == Ok(Canon(Meaning(t)), pos + |Print(t)|)
  {
    PrintedSense(s, pos, t);
    SenseIs(t);
  }

  /** Two printings of one value, in any layout and any order, have the same canonical JSON. */
  lemma PrintingsAgree(t: Text, u: Text, tags: Tags)
    requires TextOk(t) && TextOk(u)
    requires WellFormed(Meaning(t)) && WellFormed(Meaning(u)) && Reordered(Meaning(t), Meaning(u))
    ensures var p, q := ParseValue(Print(t), 0), ParseValue(Print(u), 0);
            p.Ok? && q.Ok? && ToJson(p.value, tags, false) == ToJson(q.value, tags, false)
  {
    ParseInvertsPrint(Print(t), 0, t);
    ParseInvertsPrint(Print(u), 0, u);
    ReorderedSameJson(Meaning(t), Meaning(u), tags);
  }
}
