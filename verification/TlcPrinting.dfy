/**
 Printed values and what the parser makes of them.  A `Text` is a printed value together with its
 layout: any whitespace may stand wherever the printer could break a line.
 */
module TlcPrinting {
  import opened TlcOrder
  import opened TlcCanonical
  import opened TlcParser

  datatype Text =
    | TBool(b: bool)
    | TInt(n: int)
    | TStr(raw: string)       // the characters between the quotes, escapes included
    | TName(name: string)     // a model value
    | TSet(items: seq<Item>, gap: string)
    | TSeq(items: seq<Item>, gap: string)
    | TRecord(fields: seq<TField>, gap: string)
    | TFunction(entries: seq<TEntry>)
    | TParen(inner: Item)     // a value in parentheses

  datatype Item = Item(before: string, text: Text, after: string)

  datatype TField = TField(before: string, name: string, gap: string, item: Item)

  datatype TEntry = TEntry(key: Item, value: Item)

  // ---------- printing ----------

  function Decimal(n: nat): string {
    if n < 10 then [('0' as int + n) as char] else Decimal(n / 10) + [('0' as int + n % 10) as char]
  }

  function Print(t: Text): string {
    match t
    case TBool(b) => if b then "TRUE" else "FALSE"
    case TInt(n) => if n < 0 then "-" + Decimal(-n) else Decimal(n)
    case TStr(raw) => "\"" + (raw + "\"")
    case TName(name) => name
    case TSet(items, gap) => "{" + PrintItems(items, gap, "}")
    case TSeq(items, gap) => "<<" + PrintItems(items, gap, ">>")
    case TRecord(fields, gap) => "[" + PrintFields(fields, gap)
    case TFunction(entries) => "(" + PrintEntries(entries)
    case TParen(inner) => "(" + (PrintItem(inner) + ")")
  }

  function PrintItem(i: Item): string {
    i.before + (Print(i.text) + i.after)
  }

  /** The items, comma separated, with the closing bracket; the gap is the inside of an empty list. */
  function PrintItems(items: seq<Item>, gap: string, close: string): string {
    if items == [] then gap + close
    else if |items| == 1 then PrintItem(items[0]) + close
    else PrintItem(items[0]) + ("," + PrintItems(items[1..], gap, close))
  }

  function PrintFields(fs: seq<TField>, gap: string): string {
    if fs == [] then gap + "]"
    else if |fs| == 1 then PrintField(fs[0]) + "]"
    else PrintField(fs[0]) + ("," + PrintFields(fs[1..], gap))
  }

  function PrintField(f: TField): string {
    f.before + (f.name + (f.gap + ("|->" + PrintItem(f.item))))
  }

  function PrintEntries(es: seq<TEntry>): string
    decreases es, 1
  {
    if es == [] then ")"
    else
      assert es[0].key < es[0];
      PrintItem(es[0].key) + PrintValues(es)
  }

  /** From the `:>` of the first entry on. */
  function PrintValues(es: seq<TEntry>): string
    requires es != []
    decreases es, 0
  {
    assert es[0].value < es[0];
    ":>" + (PrintItem(es[0].value) + if |es| == 1 then ")" else "@@" + PrintEntries(es[1..]))
  }

  // ---------- meaning and well-formedness ----------

  function Meaning(t: Text): Value {
    match t
    case TBool(b) => Bool(b)
    case TInt(n) => Int(n)
    case TStr(raw) => Str(raw)
    case TName(name) => Str(name)
    case TSet(items, _) => SetOf(Meanings(items))
    case TSeq(items, _) => SeqOf(Meanings(items))
    case TRecord(fs, _) => Record(PutAll([], FieldMeanings(fs)))
    case TFunction(es) => Function(EntryMeanings(es))
    case TParen(inner) => Meaning(inner.text)
  }

  function Meanings(items: seq<Item>): (r: seq<Value>)
    ensures |r| == |items|
  {
    if items == [] then [] else [Meaning(items[0].text)] + Meanings(items[1..])
  }

  function FieldMeanings(fs: seq<TField>): (r: seq<Field>)
    ensures |r| == |fs|
  {
    if fs == [] then [] else [Field(fs[0].name, Meaning(fs[0].item.text))] + FieldMeanings(fs[1..])
  }

  function EntryMeanings(es: seq<TEntry>): (r: seq<Entry>)
    ensures |r| == |es|
  {
    if es == [] then []
    else
      var e := es[0];
      var k, v := e.key, e.value;
      assert k < e && v < e && k.text < k && v.text < v;
      [Entry(Meaning(k.text), Meaning(v.text))] + EntryMeanings(es[1..])
  }

  /** The value the parser returns: sets and functions sorted at every depth. */
  function Sense(t: Text): Value {
    match t
    case TBool(b) => Bool(b)
    case TInt(n) => Int(n)
    case TStr(raw) => Str(raw)
    case TName(name) => Str(name)
    case TSet(items, _) => SetOf(SortBy(Senses(items), SortKey))
    case TSeq(items, _) => SeqOf(Senses(items))
    case TRecord(fs, _) => Record(PutAll([], FieldSenses(fs)))
    case TFunction(es) => Function(SortBy(EntrySenses(es), EntryKey))
    case TParen(inner) => Sense(inner.text)
  }

  function Senses(items: seq<Item>): (r: seq<Value>) {
    if items == [] then [] else [Sense(items[0].text)] + Senses(items[1..])
  }

  function FieldSenses(fs: seq<TField>): (r: seq<Field>) {
    if fs == [] then [] else [Field(fs[0].name, Sense(fs[0].item.text))] + FieldSenses(fs[1..])
  }

  function EntrySenses(es: seq<TEntry>): (r: seq<Entry>) {
    if es == [] then []
    else
      var e := es[0];
      var k, v := e.key, e.value;
      assert k < e && v < e && k.text < k && v.text < v;
      [Entry(Sense(k.text), Sense(v.text))] + EntrySenses(es[1..])
  }

  /** White space that may stand between tokens. */
  predicate GapOk(g: string) { forall i | 0 <= i < |g| :: g[i] == ' ' || g[i] == '\t' || g[i] == '\n' }

  predicate WordOk(w: string) {
    |w| > 0 && forall i | 0 <= i < |w| ::
      'a' <= w[i] <= 'z' || 'A' <= w[i] <= 'Z' || '0' <= w[i] <= '9' || w[i] == '_'
  }

  /** Escapes are complete and no quote is unescaped. */
  predicate RawOk(raw: string) {
    raw == "" || (raw[0] != '"' && if raw[0] == '\\' then |raw| >= 2 && RawOk(raw[2..]) else RawOk(raw[1..]))
  }

  /** A model value that the boolean check does not swallow. */
  predicate NameOk(name: string) {
    WordOk(name) && !('0' <= name[0] <= '9') && !("TRUE" <= name) && !("FALSE" <= name)
  }

  predicate TextOk(t: Text) {
    match t
    case TStr(raw) => RawOk(raw)
    case TName(name) => NameOk(name)
    case TSet(items, gap) => GapOk(gap) && forall i | 0 <= i < |items| :: ItemOk(items[i])
    case TSeq(items, gap) => GapOk(gap) && forall i | 0 <= i < |items| :: ItemOk(items[i])
    case TRecord(fs, gap) => GapOk(gap) && forall i | 0 <= i < |fs| :: TFieldOk(fs[i])
    case TFunction(es) => forall i | 0 <= i < |es| :: ItemOk(es[i].key) && ItemOk(es[i].value)
    case TParen(inner) => ItemOk(inner)
    case _ => true
  }

  predicate ItemOk(i: Item) { GapOk(i.before) && TextOk(i.text) && GapOk(i.after) }

  predicate TFieldOk(f: TField) { GapOk(f.before) && WordOk(f.name) && GapOk(f.gap) && ItemOk(f.item) }

  /** What follows at `end` does not continue the printed value. */
  predicate Ends(t: Text, s: string, end: nat)
    requires end <= |s|
  {
    end == |s| || ((t.TInt? ==> !('0' <= s[end] <= '9')) && (t.TName? ==> !WordOk([s[end]])))
  }

  // ---------- scanning printed text ----------

  lemma AtSplit(s: string, pos: nat, a: string, b: string)
    ensures At(s, pos, a + b) <==> At(s, pos, a) && At(s, pos + |a|, b)
  {
    if At(s, pos, a + b) {
      forall i | 0 <= i < |b| ensures s[pos + |a| + i] == b[i] {
        assert (a + b)[|a| + i] == b[i];
      }
      forall i | 0 <= i < |a| ensures s[pos + i] == a[i] {
        assert (a + b)[i] == a[i];
      }
    }
    if At(s, pos, a) && At(s, pos + |a|, b) {
      forall i | 0 <= i < |a + b| ensures s[pos + i] == (a + b)[i] {
        if i >= |a| {
          assert b[i - |a|] == s[pos + |a| + (i - |a|)];
        }
      }
    }
  }

  lemma AtSlice(s: string, pos: nat, t: string)
    requires At(s, pos, t)
    ensures s[pos..pos + |t|] == t && Slice(s, pos, pos + |t|) == t
  {
  }

  lemma AtIndex(s: string, pos: nat, t: string, i: nat)
    requires At(s, pos, t) && i < |t|
    ensures s[pos + i] == t[i]
  {
  }

  lemma {:induction false} ScanOver(s: string, pos: nat, t: string, p: char -> bool)
    requires At(s, pos, t) && forall i | 0 <= i < |t| :: p(t[i])
    ensures Scan(s, pos, p) == Scan(s, pos + |t|, p)
    decreases t
  {
    if t != "" {
      AtIndex(s, pos, t, 0);
      assert t == t[..1] + t[1..];
      AtSplit(s, pos, t[..1], t[1..]);
      ScanOver(s, pos + 1, t[1..], p);
    }
  }

  lemma {:induction false} StringOver(s: string, pos: nat, raw: string)
    requires RawOk(raw) && At(s, pos, raw + "\"")
    ensures StringEnd(s, pos) == pos + |raw|
    decreases raw
  {
    if raw == "" {
      AtIndex(s, pos, raw + "\"", 0);
    } else {
      var n := if raw[0] == '\\' then 2 else 1;
      AtIndex(s, pos, raw + "\"", 0);
      assert raw + "\"" == raw[..n] + (raw[n..] + "\"");
      AtSplit(s, pos, raw[..n], raw[n..] + "\"");
      StringOver(s, pos + n, raw[n..]);
    }
  }

  lemma {:induction false} DecimalOk(n: nat)
    ensures var d := Decimal(n);
            |d| > 0 && (forall i | 0 <= i < |d| :: IsDigit(d[i])) && DigitsValue(d) == n
  {
    var d := Decimal(n);
    if n < 10 {
      assert d[..0] == "";
    } else {
      DecimalOk(n / 10);
      assert d[..|d| - 1] == Decimal(n / 10);
    }
  }

  /** A printed value starts with a character no list or operator syntax could be confused with. */
  predicate HeadOk(c: char) {
    !IsGap(c) && c != '}' && c != '>' && c != ']' && c != ')' && c != ','
  }

  lemma PrintHead(t: Text)
    requires TextOk(t)
    ensures |Print(t)| > 0 && HeadOk(Print(t)[0])
  {
    match t
    case TInt(n) => DecimalOk(if n < 0 then -n else n);
    case _ =>
  }

  /** What may stand right after an item: a separator or a closing bracket. */
  predicate StopOk(rest: string) {
    |rest| > 0 && !IsGap(rest[0]) && !IsWord(rest[0])
  }

  // ---------- scalars ----------

  lemma NoGap(s: string, pos: nat)
    requires pos < |s| && !IsGap(s[pos])
    ensures SkipGap(s, pos) == pos
  {
  }

  lemma NotAt(s: string, pos: nat, w: string)
    requires |w| > 0 && pos < |s| && s[pos] != w[0]
    ensures !At(s, pos, w)
  {
    assert pos + |w| <= |s| ==> s[pos..pos + |w|][0] == s[pos];
  }

  lemma PrintedBool(s: string, pos: nat, b: bool)
    requires At(s, pos, Print(TBool(b)))
    ensures ParseValue(s, pos) == Ok(Bool(b), pos + |Print(TBool(b))|)
  {
    AtIndex(s, pos, Print(TBool(b)), 0);
    NoGap(s, pos);
    if !b {
      NotAt(s, pos, "TRUE");
    }
    assert ParseValue(s, pos) == ParseAt(s, pos);
  }

  lemma PrintedRaw(s: string, pos: nat, raw: string)
    requires RawOk(raw) && At(s, pos + 1, raw + "\"")
    ensures ParseString(s, pos) == Ok(Str(raw), pos + |raw| + 2)
  {
    StringOver(s, pos + 1, raw);
    AtSplit(s, pos + 1, raw, "\"");
    AtSlice(s, pos + 1, raw);
  }

  lemma PrintedStr(s: string, pos: nat, raw: string)
    requires RawOk(raw) && At(s, pos, Print(TStr(raw)))
    ensures ParseValue(s, pos) == Ok(Str(raw), pos + |Print(TStr(raw))|)
  {
    AtIndex(s, pos, Print(TStr(raw)), 0);
    NoGap(s, pos);
    NotAt(s, pos, "TRUE");
    NotAt(s, pos, "FALSE");
    assert ParseValue(s, pos) == ParseAt(s, pos) == ParseOther(s, pos) == ParseString(s, pos);
    AtSplit(s, pos, "\"", raw + "\"");
    PrintedRaw(s, pos, raw);
  }

  lemma PrintedName(s: string, pos: nat, name: string)
    requires NameOk(name) && At(s, pos, name) && Ends(TName(name), s, pos + |name|)
    ensures ParseValue(s, pos) == Ok(Str(name), pos + |name|)
  {
    AtIndex(s, pos, name, 0);
    NoGap(s, pos);
    NotBoolean(s, pos, name);
    NotAt(s, pos, "<<");
    assert ParseValue(s, pos) == ParseAt(s, pos) == ParseOther(s, pos) == ParseName(s, pos);
    ScanOver(s, pos, name, IsWord);
    AtSlice(s, pos, name);
  }

  lemma NotBoolean(s: string, pos: nat, name: string)
    requires NameOk(name) && At(s, pos, name) && Ends(TName(name), s, pos + |name|)
    ensures !At(s, pos, "TRUE") && !At(s, pos, "FALSE")
  {
    NotPrefix(s, pos, name, "TRUE");
    NotPrefix(s, pos, name, "FALSE");
  }

  lemma NotPrefix(s: string, pos: nat, name: string, w: string)
    requires At(s, pos, name) && Ends(TName(name), s, pos + |name|)
    requires WordOk(w) && !(w <= name)
    ensures !At(s, pos, w)
  {
    if At(s, pos, w) {
      if |w| <= |name| {
        PrefixAt(s, pos, name, w);
      } else {
        WordGoesOn(s, pos, |name|, w);
      }
    }
  }

  lemma WordGoesOn(s: string, pos: nat, n: int, w: string)
    requires At(s, pos, w) && WordOk(w) && 0 <= n < |w|
    ensures pos + n < |s| && IsWord(s[pos + n])
  {
    assert s[pos + n] == w[n];
  }

  lemma PrefixAt(s: string, pos: nat, name: string, w: string)
    requires At(s, pos, name) && At(s, pos, w) && |w| <= |name|
    ensures w <= name
  {
    assert name[..|w|] == s[pos..pos + |name|][..|w|];
  }

  lemma PrintedDigits(s: string, digits: nat, n: nat)
    requires At(s, digits, Decimal(n)) && (digits + |Decimal(n)| == |s| || !IsDigit(s[digits + |Decimal(n)|]))
    ensures var end := Scan(s, digits, IsDigit);
            end == digits + |Decimal(n)| && end > digits && s[digits..end] == Decimal(n)
  {
    DecimalOk(n);
    ScanOver(s, digits, Decimal(n), IsDigit);
  }

  lemma PrintedInteger(s: string, pos: nat, n: int)
    requires At(s, pos, Print(TInt(n))) && Ends(TInt(n), s, pos + |Print(TInt(n))|)
    ensures pos < |s| && (s[pos] == '-' || IsDigit(s[pos]))
    ensures ParseInteger(s, pos) == Ok(Int(n), pos + |Print(TInt(n))|)
  {
    var m := if n < 0 then -n else n;
    DecimalOk(m);
    AtIndex(s, pos, Print(TInt(n)), 0);
    if n < 0 {
      AtSplit(s, pos, "-", Decimal(m));
      PrintedDigits(s, pos + 1, m);
    } else {
      PrintedDigits(s, pos, m);
    }
  }

  lemma PrintedInt(s: string, pos: nat, n: int)
    requires At(s, pos, Print(TInt(n))) && Ends(TInt(n), s, pos + |Print(TInt(n))|)
    ensures ParseValue(s, pos) == Ok(Int(n), pos + |Print(TInt(n))|)
  {
    PrintedInteger(s, pos, n);
    NoGap(s, pos);
    NotAt(s, pos, "TRUE");
    NotAt(s, pos, "FALSE");
    assert ParseValue(s, pos) == ParseAt(s, pos) == ParseOther(s, pos) == ParseInteger(s, pos);
  }

  // ---------- items ----------

  /** Where the parts of a printed item are. */
  lemma ItemLayout(s: string, pos: nat, item: Item, rest: string)
    requires ItemOk(item) && StopOk(rest) && At(s, pos, PrintItem(item) + rest)
    ensures var start := pos + |item.before|;
            var end := start + |Print(item.text)|;
            && SkipGap(s, pos) == start && start < |s| && HeadOk(s[start])
            && At(s, start, Print(item.text)) && Ends(item.text, s, end)
            && SkipGap(s, end) == pos + |PrintItem(item)|
            && At(s, pos + |PrintItem(item)|, rest)
  {
    var t := Print(item.text);
    AtSplit(s, pos, PrintItem(item), rest);
    AtSplit(s, pos, item.before, t + item.after);
    var start := pos + |item.before|;
    AtSplit(s, start, t, item.after);
    PrintHead(item.text);
    AtIndex(s, start, t, 0);
    ScanOver(s, pos, item.before, IsGap);
    var end := start + |t|;
    AtIndex(s, end + |item.after|, rest, 0);
    ScanOver(s, end, item.after, IsGap);
    if item.after != "" {
      AtIndex(s, end, item.after, 0);
    }
    OneWord(s[end]);
  }

  lemma OneWord(c: char)
    ensures WordOk([c]) <==> IsWord(c)
  {
    assert [c][0] == c;
  }

  /** An item printed before a separator or bracket: the parser reads its value and stops at `rest`. */
  lemma {:induction false} PrintedItem(s: string, pos: nat, item: Item, rest: string)
    requires ItemOk(item) && StopOk(rest) && At(s, pos, PrintItem(item) + rest)
    ensures var start := SkipGap(s, pos);
            var v := ParseValue(s, start);
            && start < |s| && HeadOk(s[start])
            && v.Ok? && v.value == Sense(item.text)
            && SkipGap(s, v.pos) == pos + |PrintItem(item)|
            && At(s, pos + |PrintItem(item)|, rest)
    decreases item, 1
  {
    ItemLayout(s, pos, item, rest);
    PrintedSense(s, pos + |item.before|, item.text);
  }

  lemma {:induction false} PrintedElement(s: string, pos: nat, item: Item, rest: string)
    requires ItemOk(item) && StopOk(rest) && At(s, pos, PrintItem(item) + rest)
    ensures var start := SkipGap(s, pos);
            && start < |s| && HeadOk(s[start])
            && ParseElement(s, start) ==
               Ok(Sense(item.text), pos + |PrintItem(item)| + if rest[0] == ',' then 1 else 0)
            && At(s, pos + |PrintItem(item)|, rest)
    decreases item, 2
  {
    PrintedItem(s, pos, item, rest);
    AtIndex(s, pos + |PrintItem(item)|, rest, 0);
  }

  // ---------- lists ----------

  predicate ItemsOk(items: seq<Item>) { forall i | 0 <= i < |items| :: ItemOk(items[i]) }

  /** The gap inside an empty list, up to its closing bracket. */
  lemma PrintedGap(s: string, pos: nat, gap: string, close: string)
    requires GapOk(gap) && |close| > 0 && !IsGap(close[0]) && At(s, pos, gap + close)
    ensures var end := pos + |gap|; SkipGap(s, pos) == end && end < |s| && s[end] == close[0] && At(s, end, close)
  {
    AtSplit(s, pos, gap, close);
    AtIndex(s, pos + |gap|, close, 0);
    ScanOver(s, pos, gap, IsGap);
  }

  /** The rest of a list after its first item: nothing but the bracket, or a comma and more items. */
  function RestOfItems(items: seq<Item>, gap: string, close: string): string
    requires items != []
  {
    if |items| == 1 then close else "," + PrintItems(items[1..], gap, close)
  }

  /** Reading the first item of a list leaves exactly the printing of the rest. */
  lemma {:induction false} PrintedFirst(s: string, pos: nat, items: seq<Item>, gap: string, close: string)
    requires items != [] && ItemsOk(items) && StopOk(close) && close[0] != ','
    requires At(s, pos, PrintItems(items, gap, close))
    ensures var start := SkipGap(s, pos);
            var next := pos + |PrintItem(items[0])| + if |items| == 1 then 0 else 1;
            && start < |s| && HeadOk(s[start])
            && ParseElement(s, start) == Ok(Sense(items[0].text), next)
            && var rest := PrintItems(items[1..], if |items| == 1 then "" else gap, close);
            At(s, next, rest) && next + |rest| == pos + |PrintItems(items, gap, close)|
    decreases items, 3
  {
    var rest := RestOfItems(items, gap, close);
    assert ItemOk(items[0]);
    PrintedElement(s, pos, items[0], rest);
    var at := pos + |PrintItem(items[0])|;
    if |items| == 1 {
      assert PrintItems(items[1..], "", close) == "" + close == close;
    } else {
      AtSplit(s, at, ",", PrintItems(items[1..], gap, close));
    }
  }

  lemma PrintedNoItems(s: string, pos: nat, gap: string, close: string, acc: seq<Value>)
    requires GapOk(gap) && |close| > 0 && !IsGap(close[0]) && At(s, pos, gap + close)
    ensures ParseItems(s, pos, close, acc) == List(acc, pos + |gap + close|)
  {
    PrintedGap(s, pos, gap, close);
  }

  lemma ItemsStep(s: string, pos: nat, close: string, acc: seq<Value>, v: Value, next: nat)
    requires |close| > 0 && !HeadOk(close[0])
    requires var start := SkipGap(s, pos);
             start < |s| && HeadOk(s[start]) && ParseElement(s, start) == Ok(v, next)
    ensures ParseItems(s, pos, close, acc) == ParseItems(s, next, close, acc + [v])
  {
    NotAt(s, SkipGap(s, pos), close);
  }

  lemma {:induction false} NextItem(s: string, pos: nat, items: seq<Item>, gap: string, close: string, acc: seq<Value>)
    returns (next: nat)
    requires items != [] && ItemsOk(items) && StopOk(close) && close[0] != ',' && !HeadOk(close[0])
    requires At(s, pos, PrintItems(items, gap, close))
    ensures var rest := PrintItems(items[1..], if |items| == 1 then "" else gap, close);
            At(s, next, rest) && next + |rest| == pos + |PrintItems(items, gap, close)|
    ensures ParseItems(s, pos, close, acc) == ParseItems(s, next, close, acc + [Sense(items[0].text)])
    decreases items, 4
  {
    PrintedFirst(s, pos, items, gap, close);
    next := ParseElement(s, SkipGap(s, pos)).pos;
    ItemsStep(s, pos, close, acc, Sense(items[0].text), next);
  }

  lemma {:induction false} PrintedItems(
    s: string, pos: nat, items: seq<Item>, gap: string, close: string, acc: seq<Value>)
    requires ItemsOk(items) && GapOk(gap) && StopOk(close) && close[0] != ',' && !HeadOk(close[0])
    requires At(s, pos, PrintItems(items, gap, close))
    ensures ParseItems(s, pos, close, acc) == List(acc + Senses(items), pos + |PrintItems(items, gap, close)|)
    decreases items, 5
  {
    if items == [] {
      PrintedNoItems(s, pos, gap, close, acc);
      assert acc + Senses(items) == acc;
    } else {
      var next := NextItem(s, pos, items, gap, close, acc);
      var acc' := acc + [Sense(items[0].text)];
      PrintedItems(s, next, items[1..], if |items| == 1 then "" else gap, close, acc');
      assert acc + Senses(items) == acc' + Senses(items[1..]);
    }
  }

  // ---------- records ----------

  lemma StripWord(w: string)
    requires WordOk(w)
    ensures Strip(w) == w
  {
  }

  lemma PrintedWord(s: string, start: nat, name: string)
    requires WordOk(name) && At(s, start, name) && start + |name| < |s| && !InName(s[start + |name|])
    ensures Scan(s, start, InName) == start + |name| && Slice(s, start, start + |name|) == name
  {
    ScanOver(s, start, name, InName);
  }

  lemma FieldAssociates(f: TField, rest: string)
    ensures PrintField(f) + rest == f.before + (f.name + (f.gap + ("|->" + (PrintItem(f.item) + rest))))
    ensures |PrintField(f)| == |f.before| + |f.name| + |f.gap| + 3 + |PrintItem(f.item)|
  {
    Associates(f.before, f.name, f.gap, PrintItem(f.item), rest);
  }

  lemma Associates(before: string, name: string, gap: string, item: string, rest: string)
    ensures (before + (name + (gap + ("|->" + item)))) + rest == before + (name + (gap + ("|->" + (item + rest))))
  {
    assert ("|->" + item) + rest == "|->" + (item + rest);
    assert (gap + ("|->" + item)) + rest == gap + (("|->" + item) + rest);
    assert (name + (gap + ("|->" + item))) + rest == name + ((gap + ("|->" + item)) + rest);
  }

  /** A leading gap makes no difference to an element. */
  lemma LeadingGap(s: string, pos: nat)
    ensures ParseElement(s, pos) == ParseElement(s, SkipGap(s, pos))
  {
    ScanIs(s, pos, IsGap);
    assert SkipGap(s, SkipGap(s, pos)) == SkipGap(s, pos);
    assert ParseValue(s, pos) == ParseAt(s, SkipGap(s, pos)) == ParseValue(s, SkipGap(s, pos));
  }

  lemma {:induction false} PrintedFieldValue(s: string, value: nat, f: TField, rest: string)
    requires TFieldOk(f) && StopOk(rest) && At(s, value, PrintItem(f.item) + rest)
    ensures ParseElement(s, value) ==
            Ok(Sense(f.item.text), value + |PrintItem(f.item)| + if rest[0] == ',' then 1 else 0)
    ensures At(s, value + |PrintItem(f.item)|, rest)
    decreases f, 2
  {
    PrintedElement(s, value, f.item, rest);
    LeadingGap(s, value);
  }

  /** One field, once its name, its arrow and its value have been found. */
  lemma FieldStep(s: string, start: nat, name: string, arrow: nat, v: Value, end: nat)
    requires Strip(name) == name && Scan(s, start, InName) == start + |name| && Slice(s, start, start + |name|) == name
    requires SkipGap(s, start + |name|) == arrow && At(s, arrow, "|->") && ParseElement(s, arrow + 3) == Ok(v, end)
    ensures ParseField(s, start) == FieldOk(name, v, end)
  {
  }

  /** Where the parts of a printed field are. */
  lemma FieldParts(s: string, pos: nat, before: string, name: string, gap: string, value: string)
    requires At(s, pos, before + (name + (gap + ("|->" + value))))
    ensures At(s, pos, before) && At(s, pos + |before|, name) && At(s, pos + |before| + |name|, gap)
    ensures var arrow := pos + |before| + |name| + |gap|; At(s, arrow, "|->") && At(s, arrow + 3, value)
  {
    AtSplit(s, pos, before, name + (gap + ("|->" + value)));
    AtSplit(s, pos + |before|, name, gap + ("|->" + value));
    AtSplit(s, pos + |before| + |name|, gap, "|->" + value);
    AtSplit(s, pos + |before| + |name| + |gap|, "|->", value);
  }

  /** The gap between a field's name and its arrow. */
  lemma ArrowGap(s: string, pos: nat, gap: string)
    requires GapOk(gap) && At(s, pos, gap) && At(s, pos + |gap|, "|->")
    ensures SkipGap(s, pos) == pos + |gap| && pos < |s| && !InName(s[pos])
  {
    AtIndex(s, pos + |gap|, "|->", 0);
    ScanOver(s, pos, gap, IsGap);
    if gap != "" {
      AtIndex(s, pos, gap, 0);
    }
  }

  /** The gap before a field's name. */
  lemma NameGap(s: string, pos: nat, before: string, name: string)
    requires GapOk(before) && WordOk(name) && At(s, pos, before) && At(s, pos + |before|, name)
    ensures var start := pos + |before|; SkipGap(s, pos) == start && start < |s| && s[start] != ']'
  {
    AtIndex(s, pos + |before|, name, 0);
    ScanOver(s, pos, before, IsGap);
  }

  /** A field printed with any gaps is read as its name and its value. */
  lemma FieldRead(s: string, start: nat, name: string, gap: string, v: Value, end: nat)
    requires WordOk(name) && GapOk(gap) && At(s, start, name) && At(s, start + |name|, gap)
    requires var arrow := start + |name| + |gap|; At(s, arrow, "|->") && ParseElement(s, arrow + 3) == Ok(v, end)
    ensures ParseField(s, start) == FieldOk(name, v, end)
  {
    ArrowGap(s, start + |name|, gap);
    PrintedWord(s, start, name);
    StripWord(name);
    FieldStep(s, start, name, start + |name| + |gap|, v, end);
  }

  lemma {:induction false} PrintedField(s: string, pos: nat, f: TField, rest: string)
    requires TFieldOk(f) && StopOk(rest) && At(s, pos, PrintField(f) + rest)
    ensures var start := SkipGap(s, pos);
            && start < |s| && s[start] != ']'
            && ParseField(s, start) ==
               FieldOk(f.name, Sense(f.item.text), pos + |PrintField(f)| + if rest[0] == ',' then 1 else 0)
            && At(s, pos + |PrintField(f)|, rest)
    decreases f, 3
  {
    var value := PrintItem(f.item) + rest;
    FieldAssociates(f, rest);
    FieldParts(s, pos, f.before, f.name, f.gap, value);
    NameGap(s, pos, f.before, f.name);
    var at := pos + |f.before| + |f.name| + |f.gap| + 3;
    PrintedFieldValue(s, at, f, rest);
    FieldRead(s, pos + |f.before|, f.name, f.gap, Sense(f.item.text), ParseElement(s, at).pos);
  }

  predicate FieldsOk(fs: seq<TField>) { forall i | 0 <= i < |fs| :: TFieldOk(fs[i]) }

  /** The rest of a record after its first field. */
  function RestOfFields(fs: seq<TField>, gap: string): string
    requires fs != []
  {
    if |fs| == 1 then "]" else "," + PrintFields(fs[1..], gap)
  }

  /** Where the second field, or the bracket, is. */
  lemma FieldsLayout(s: string, pos: nat, fs: seq<TField>, gap: string)
    requires fs != [] && At(s, pos + |PrintField(fs[0])|, RestOfFields(fs, gap))
    ensures var next := pos + |PrintField(fs[0])| + if |fs| == 1 then 0 else 1;
            var rest := PrintFields(fs[1..], if |fs| == 1 then "" else gap);
            At(s, next, rest) && next + |rest| == pos + |PrintFields(fs, gap)|
  {
    if |fs| == 1 {
      assert PrintFields(fs[1..], "") == "" + "]" == "]";
    } else {
      AtSplit(s, pos + |PrintField(fs[0])|, ",", PrintFields(fs[1..], gap));
    }
  }

  lemma PrintedNoFields(s: string, pos: nat, gap: string, acc: seq<Field>)
    requires GapOk(gap) && At(s, pos, gap + "]")
    ensures ParseFields(s, pos, acc) == List(acc, pos + |gap + "]"|)
  {
    PrintedGap(s, pos, gap, "]");
  }

  lemma FieldsStep(s: string, pos: nat, acc: seq<Field>, name: string, v: Value, next: nat)
    requires var start := SkipGap(s, pos);
             start < |s| && s[start] != ']' && ParseField(s, start) == FieldOk(name, v, next)
    ensures ParseFields(s, pos, acc) == ParseFields(s, next, Put(acc, name, v))
  {
  }

  lemma {:induction false} NextField(s: string, pos: nat, fs: seq<TField>, gap: string, acc: seq<Field>)
    returns (next: nat)
    requires fs != [] && FieldsOk(fs) && At(s, pos, PrintFields(fs, gap))
    ensures var rest := PrintFields(fs[1..], if |fs| == 1 then "" else gap);
            At(s, next, rest) && next + |rest| == pos + |PrintFields(fs, gap)|
    ensures ParseFields(s, pos, acc) == ParseFields(s, next, Put(acc, fs[0].name, Sense(fs[0].item.text)))
    decreases fs, 5
  {
    var f := fs[0];
    assert TFieldOk(f);
    PrintedField(s, pos, f, RestOfFields(fs, gap));
    next := pos + |PrintField(f)| + if |fs| == 1 then 0 else 1;
    FieldsStep(s, pos, acc, f.name, Sense(f.item.text), next);
    FieldsLayout(s, pos, fs, gap);
  }

  lemma FieldSensesSplit(acc: seq<Field>, fs: seq<TField>)
    requires fs != []
    ensures PutAll(acc, FieldSenses(fs)) ==
            PutAll(Put(acc, fs[0].name, Sense(fs[0].item.text)), FieldSenses(fs[1..]))
  {
    assert FieldSenses(fs)[1..] == FieldSenses(fs[1..]);
  }

  lemma {:induction false} PrintedFields(s: string, pos: nat, fs: seq<TField>, gap: string, acc: seq<Field>)
    requires FieldsOk(fs) && GapOk(gap) && At(s, pos, PrintFields(fs, gap))
    ensures ParseFields(s, pos, acc) == List(PutAll(acc, FieldSenses(fs)), pos + |PrintFields(fs, gap)|)
    decreases fs, 6
  {
    if fs == [] {
      PrintedNoFields(s, pos, gap, acc);
    } else {
      var next := NextField(s, pos, fs, gap, acc);
      var v := Sense(fs[0].item.text);
      FieldSensesSplit(acc, fs);
      PrintedFields(s, next, fs[1..], if |fs| == 1 then "" else gap, Put(acc, fs[0].name, v));
    }
  }

  // ---------- functions ----------

  predicate EntriesOk(es: seq<TEntry>) { forall i | 0 <= i < |es| :: ItemOk(es[i].key) && ItemOk(es[i].value) }

  lemma {:induction false} PrintedOperand(s: string, op: nat, item: Item, rest: string)
    requires ItemOk(item) && StopOk(rest) && At(s, op + 2, PrintItem(item) + rest)
    ensures ParseOperand(s, op) == Ok(Sense(item.text), op + 2 + |PrintItem(item)|)
    ensures At(s, op + 2 + |PrintItem(item)|, rest)
    decreases item, 2
  {
    PrintedItem(s, op + 2, item, rest);
  }

  function AfterValue(es: seq<TEntry>): (r: string)
    requires es != []
    ensures StopOk(r)
  {
    if |es| == 1 then ")" else "@@" + PrintEntries(es[1..])
  }

  /** Where the value of the first entry is. */
  lemma ValueLayout(s: string, colon: nat, es: seq<TEntry>)
    requires es != [] && At(s, colon, PrintValues(es))
    ensures At(s, colon, ":>") && At(s, colon + 2, PrintItem(es[0].value) + AfterValue(es))
    ensures |PrintValues(es)| == 2 + |PrintItem(es[0].value)| + |AfterValue(es)|
  {
    AtSplit(s, colon, ":>", PrintItem(es[0].value) + AfterValue(es));
  }

  /** Where the argument of the second entry is. */
  lemma KeyLayout(s: string, next: nat, es: seq<TEntry>)
    requires |es| > 1 && At(s, next, AfterValue(es))
    ensures At(s, next, "@@") && At(s, next + 2, PrintItem(es[1].key) + PrintValues(es[1..]))
    ensures |AfterValue(es)| == 2 + |PrintItem(es[1].key)| + |PrintValues(es[1..])|
  {
    assert es[1..][0] == es[1];
    AtSplit(s, next, "@@", PrintEntries(es[1..]));
  }

  lemma ValuesStop(es: seq<TEntry>)
    requires es != []
    ensures StopOk(PrintValues(es))
  {
  }

  /** The value of the first entry, and what follows it. */
  lemma {:induction false} PrintedEntryValue(s: string, colon: nat, es: seq<TEntry>)
    requires es != [] && EntriesOk(es) && At(s, colon, PrintValues(es))
    ensures var next := colon + 2 + |PrintItem(es[0].value)|;
            && ParseOperand(s, colon) == Ok(Sense(es[0].value.text), next)
            && At(s, next, AfterValue(es)) && next + |AfterValue(es)| == colon + |PrintValues(es)|
    decreases es, 1
  {
    var e := es[0];
    assert e.value < e && ItemOk(e.value);
    ValueLayout(s, colon, es);
    PrintedOperand(s, colon, e.value, AfterValue(es));
  }

  /** From `@@`: the argument of the second entry, and what follows it. */
  lemma {:induction false} PrintedNextKey(s: string, next: nat, es: seq<TEntry>)
    requires |es| > 1 && EntriesOk(es) && At(s, next, AfterValue(es))
    ensures var colon := next + 2 + |PrintItem(es[1].key)|;
            && ParseOperand(s, next) == Ok(Sense(es[1].key.text), colon)
            && At(s, colon, PrintValues(es[1..])) && colon + |PrintValues(es[1..])| == next + |AfterValue(es)|
    decreases es, 1
  {
    var e := es[1];
    assert e.key < e && ItemOk(e.key);
    KeyLayout(s, next, es);
    ValuesStop(es[1..]);
    PrintedOperand(s, next, e.key, PrintValues(es[1..]));
  }

  lemma LastEntryStep(s: string, colon: nat, key: Value, acc: seq<Entry>, v: Value, next: nat)
    requires colon < |s| && ParseOperand(s, colon) == Ok(v, next) && At(s, next, ")")
    ensures ParseEntries(s, colon, key, acc) == List(acc + [Entry(key, v)], next + 1)
  {
    AtIndex(s, next, ")", 0);
  }

  lemma EntryStep(s: string, colon: nat, key: Value, acc: seq<Entry>, v: Value, at: nat, k: Value, next: nat)
    requires colon < |s| && ParseOperand(s, colon) == Ok(v, at)
    requires At(s, at, "@@") && ParseOperand(s, at) == Ok(k, next)
    ensures ParseEntries(s, colon, key, acc) == ParseEntries(s, next, k, acc + [Entry(key, v)])
  {
    AtIndex(s, at, "@@", 0);
  }

  lemma {:induction false} PrintedLastValue(s: string, colon: nat, es: seq<TEntry>, key: Value, acc: seq<Entry>)
    requires |es| == 1 && EntriesOk(es) && At(s, colon, PrintValues(es))
    ensures ParseEntries(s, colon, key, acc) ==
            List(acc + [Entry(key, Sense(es[0].value.text))], colon + |PrintValues(es)|)
    decreases es, 2
  {
    PrintedEntryValue(s, colon, es);
    LastEntryStep(s, colon, key, acc, Sense(es[0].value.text), colon + 2 + |PrintItem(es[0].value)|);
  }

  lemma {:induction false} NextEntry(s: string, colon: nat, es: seq<TEntry>, key: Value, acc: seq<Entry>)
    returns (next: nat)
    requires |es| > 1 && EntriesOk(es) && At(s, colon, PrintValues(es))
    ensures At(s, next, PrintValues(es[1..])) && next + |PrintValues(es[1..])| == colon + |PrintValues(es)|
    ensures ParseEntries(s, colon, key, acc) ==
            ParseEntries(s, next, Sense(es[1].key.text), acc + [Entry(key, Sense(es[0].value.text))])
    decreases es, 2
  {
    PrintedEntryValue(s, colon, es);
    var at := colon + 2 + |PrintItem(es[0].value)|;
    PrintedNextKey(s, at, es);
    next := at + 2 + |PrintItem(es[1].key)|;
    KeyLayout(s, at, es);
    EntryStep(s, colon, key, acc, Sense(es[0].value.text), at, Sense(es[1].key.text), next);
  }

  lemma {:induction false} PrintedValues(s: string, colon: nat, es: seq<TEntry>, acc: seq<Entry>)
    requires es != [] && EntriesOk(es) && At(s, colon, PrintValues(es))
    ensures ParseEntries(s, colon, Sense(es[0].key.text), acc) == List(acc + EntrySenses(es), colon + |PrintValues(es)|)
    decreases es, 3
  {
    var key := Sense(es[0].key.text);
    var acc' := acc + [Entry(key, Sense(es[0].value.text))];
    assert acc + EntrySenses(es) == acc' + EntrySenses(es[1..]);
    if |es| == 1 {
      PrintedLastValue(s, colon, es, key, acc);
      assert acc' + EntrySenses(es[1..]) == acc';
    } else {
      var next := NextEntry(s, colon, es, key, acc);
      PrintedValues(s, next, es[1..], acc');
    }
  }

  lemma FunctionStep(s: string, pos: nat, key: Value, colon: nat)
    requires var start := SkipGap(s, pos);
             && start < |s| && s[start] != ')'
             && ParseValue(s, start).Ok? && ParseValue(s, start).value == key
             && SkipGap(s, ParseValue(s, start).pos) == colon && At(s, colon, ":>")
    ensures ParseParenthesized(s, pos) == AsFunction(ParseEntries(s, colon, key, []))
  {
  }

  lemma {:induction false} PrintedFirstKey(s: string, pos: nat, es: seq<TEntry>)
    requires es != [] && EntriesOk(es) && At(s, pos, PrintItem(es[0].key) + PrintValues(es))
    ensures var colon := pos + |PrintItem(es[0].key)|;
            && At(s, colon, PrintValues(es))
            && ParseParenthesized(s, pos) == AsFunction(ParseEntries(s, colon, Sense(es[0].key.text), []))
    decreases es, 3
  {
    var e := es[0];
    assert e.key < e && ItemOk(e.key);
    ValuesStop(es);
    PrintedItem(s, pos, e.key, PrintValues(es));
    var colon := pos + |PrintItem(e.key)|;
    ValueLayout(s, colon, es);
    FunctionStep(s, pos, Sense(e.key.text), colon);
  }

  lemma PrintedNoEntries(s: string, pos: nat)
    requires At(s, pos, ")")
    ensures ParseParenthesized(s, pos) == Ok(Function(SortBy([], EntryKey)), pos + 1)
  {
    AtIndex(s, pos, ")", 0);
    NoGap(s, pos);
    assert SortBy<Entry>([], EntryKey) == [];
  }

  lemma FromEmpty<T>(xs: seq<T>)
    ensures [] + xs == xs
  {
  }

  lemma EntriesSplit(es: seq<TEntry>)
    requires es != []
    ensures PrintEntries(es) == PrintItem(es[0].key) + PrintValues(es)
  {
  }

  lemma {:induction false} PrintedFunction(s: string, pos: nat, es: seq<TEntry>)
    requires es != [] && EntriesOk(es) && At(s, pos, PrintItem(es[0].key) + PrintValues(es))
    ensures ParseParenthesized(s, pos) ==
            AsFunction(List(EntrySenses(es), pos + |PrintItem(es[0].key)| + |PrintValues(es)|))
    decreases es, 4
  {
    PrintedFirstKey(s, pos, es);
    PrintedValues(s, pos + |PrintItem(es[0].key)|, es, []);
    FromEmpty(EntrySenses(es));
  }

  // ---------- the theorem ----------

  lemma OpensList(s: string, pos: nat, c: string, rest: string)
    requires |c| > 0 && At(s, pos, c + rest) && !IsGap(c[0]) && c[0] != 'T' && c[0] != 'F'
    ensures pos < |s| && s[pos] == c[0] && At(s, pos, c) && At(s, pos + |c|, rest)
    ensures ParseValue(s, pos) == ParseOther(s, pos)
  {
    AtSplit(s, pos, c, rest);
    AtIndex(s, pos, c, 0);
    NoGap(s, pos);
    NotAt(s, pos, "TRUE");
    NotAt(s, pos, "FALSE");
    assert ParseValue(s, pos) == ParseAt(s, pos) == ParseOther(s, pos);
  }

  lemma {:induction false} PrintedSetText(s: string, pos: nat, t: Text)
    requires t.TSet? && TextOk(t) && At(s, pos, Print(t))
    ensures ParseValue(s, pos) == Ok(Sense(t), pos + |Print(t)|)
    decreases t, 6
  {
    OpensList(s, pos, "{", PrintItems(t.items, t.gap, "}"));
    PrintedItems(s, pos + 1, t.items, t.gap, "}", []);
    assert [] + Senses(t.items) == Senses(t.items);
  }

  lemma {:induction false} PrintedSeqText(s: string, pos: nat, t: Text)
    requires t.TSeq? && TextOk(t) && At(s, pos, Print(t))
    ensures ParseValue(s, pos) == Ok(Sense(t), pos + |Print(t)|)
    decreases t, 6
  {
    OpensList(s, pos, "<<", PrintItems(t.items, t.gap, ">>"));
    PrintedItems(s, pos + 2, t.items, t.gap, ">>", []);
    assert [] + Senses(t.items) == Senses(t.items);
  }

  lemma {:induction false} PrintedRecordText(s: string, pos: nat, t: Text)
    requires t.TRecord? && TextOk(t) && At(s, pos, Print(t))
    ensures ParseValue(s, pos) == Ok(Sense(t), pos + |Print(t)|)
    decreases t, 6
  {
    OpensList(s, pos, "[", PrintFields(t.fields, t.gap));
    NotAt(s, pos, "<<");
    PrintedFields(s, pos + 1, t.fields, t.gap, []);
  }

  lemma {:induction false} PrintedFunctionText(s: string, pos: nat, t: Text)
    requires t.TFunction? && TextOk(t) && At(s, pos, Print(t))
    ensures ParseValue(s, pos) == Ok(Sense(t), pos + |Print(t)|)
    decreases t, 6
  {
    OpensList(s, pos, "(", PrintEntries(t.entries));
    NotAt(s, pos, "<<");
    if t.entries == [] {
      PrintedNoEntries(s, pos + 1);
    } else {
      EntriesSplit(t.entries);
      PrintedFunction(s, pos + 1, t.entries);
    }
  }

  lemma ParenStep(s: string, pos: nat, v: Value, end: nat)
    requires var start := SkipGap(s, pos);
             && start < |s| && s[start] != ')'
             && ParseValue(s, start).Ok? && ParseValue(s, start).value == v
             && SkipGap(s, ParseValue(s, start).pos) == end && At(s, end, ")")
    ensures ParseParenthesized(s, pos) == Ok(v, end + 1)
  {
    AtIndex(s, end, ")", 0);
    NotAt(s, end, ":>");
  }

  lemma {:induction false} PrintedParenText(s: string, pos: nat, t: Text)
    requires t.TParen? && TextOk(t) && At(s, pos, Print(t))
    ensures ParseValue(s, pos) == Ok(Sense(t), pos + |Print(t)|)
    decreases t, 6
  {
    OpensList(s, pos, "(", PrintItem(t.inner) + ")");
    NotAt(s, pos, "<<");
    PrintedItem(s, pos + 1, t.inner, ")");
    ParenStep(s, pos + 1, Sense(t.inner.text), pos + 1 + |PrintItem(t.inner)|);
  }

  /** Parsing a printed value gives its sense and the position after it. */
  lemma {:induction false} PrintedSense(s: string, pos: nat, t: Text)
    requires TextOk(t) && At(s, pos, Print(t)) && Ends(t, s, pos + |Print(t)|)
    ensures ParseValue(s, pos) == Ok(Sense(t), pos + |Print(t)|)
    decreases t, 7
  {
    match t {
      case TBool(b) => PrintedBool(s, pos, b);
      case TInt(n) => PrintedInt(s, pos, n);
      case TStr(raw) => PrintedStr(s, pos, raw);
      case TName(name) => PrintedName(s, pos, name);
      case TSet(_, _) => PrintedSetText(s, pos, t);
      case TSeq(_, _) => PrintedSeqText(s, pos, t);
      case TRecord(_, _) => PrintedRecordText(s, pos, t);
      case TFunction(_) => PrintedFunctionText(s, pos, t);
      case TParen(_) => PrintedParenText(s, pos, t);
    }
  }

  // ---------- model values that are misread ----------

  lemma SwallowedByBoolean(s: string, pos: nat, name: string, w: string)
    requires At(s, pos, name) && w <= name && (w == "TRUE" || w == "FALSE")
    ensures ParseValue(s, pos) == Ok(Bool(w == "TRUE"), pos + |w|)
  {
    AtIndex(s, pos, name, 0);
    NoGap(s, pos);
    assert name == w + name[|w|..];
    AtSplit(s, pos, w, name[|w|..]);
    if w == "FALSE" {
      NotAt(s, pos, "TRUE");
    }
    assert ParseValue(s, pos) == ParseAt(s, pos);
  }

  lemma ReadAsInteger(s: string, pos: nat)
    requires pos < |s| && IsDigit(s[pos])
    ensures ParseValue(s, pos) == ParseInteger(s, pos)
  {
    NoGap(s, pos);
    NotAt(s, pos, "TRUE");
    NotAt(s, pos, "FALSE");
    assert ParseValue(s, pos) == ParseAt(s, pos) == ParseOther(s, pos);
  }

  /** A model value is read back exactly when it starts with no digit and with neither TRUE nor FALSE. */
  lemma ModelValueReadBack(s: string, pos: nat, name: string)
    requires WordOk(name) && At(s, pos, name) && Ends(TName(name), s, pos + |name|)
    ensures ParseValue(s, pos) == Ok(Str(name), pos + |name|) <==> NameOk(name)
  {
    if NameOk(name) {
      PrintedName(s, pos, name);
    } else if IsDigit(name[0]) {
      AtIndex(s, pos, name, 0);
      ReadAsInteger(s, pos);
    } else {
      SwallowedByBoolean(s, pos, name, if "TRUE" <= name then "TRUE" else "FALSE");
    }
  }

  /** The model values `TRUEish` and `1a` are read as true and as 1, with the rest of their names left over. */
  lemma MisreadNames()
    ensures ParseValue("TRUEish", 0) == Ok(Bool(true), 4)
    ensures ParseValue("1a", 0) == Ok(Int(1), 1)
  {
    SwallowedByBoolean("TRUEish", 0, "TRUEish", "TRUE");
    var s := "1a";
    ReadAsInteger(s, 0);
    assert Scan(s, 1, IsDigit) == 1;
    assert Scan(s, 0, IsDigit) == Scan(s, 1, IsDigit);
    var digits := s[0..1];
    assert digits == "1" && digits[..0] == "";
    assert DigitsValue(digits) == 1;
  }
}
