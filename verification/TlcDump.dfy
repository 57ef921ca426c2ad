/**
 TLC's own way of printing values, written out with its separators, is parsed back.  This does not
 depend on what the parser itself takes for white space.
 */
module TlcDump {
  import opened TlcOrder
  import opened TlcCanonical
  import opened TlcParser
  import opened TlcPrinting
  import opened TlcRoundTrip

  // ---------- TLC's printing ----------

  /** How TLC prints what a text stands for; the text's own layout is ignored. */
  function TlcPrint(t: Text): string {
    match t
    case TBool(b) => if b then "TRUE" else "FALSE"
    case TInt(n) => if n < 0 then "-" + Decimal(-n) else Decimal(n)
    case TStr(raw) => "\"" + (raw + "\"")
    case TName(name) => name
    case TSet(items, _) => "{" + (TlcItems(items) + "}")
    case TSeq(items, _) => "<<" + (TlcItems(items) + ">>")
    case TRecord(fs, _) => "[" + (TlcFields(fs) + "]")
    case TFunction(es) => "(" + (TlcEntries(es) + ")")
    case TParen(inner) => "(" + (TlcPrint(inner.text) + ")")
  }

  function TlcItems(items: seq<Item>): string {
    if items == [] then ""
    else TlcPrint(items[0].text) + if |items| == 1 then "" else ", " + TlcItems(items[1..])
  }

  function TlcFields(fs: seq<TField>): string {
    if fs == [] then ""
    else fs[0].name + (" |-> " + (TlcPrint(fs[0].item.text) + if |fs| == 1 then "" else ", " + TlcFields(fs[1..])))
  }

  function TlcEntries(es: seq<TEntry>): string {
    if es == [] then ""
    else
      var e := es[0];
      assert e.key < e && e.value < e && e.key.text < e.key && e.value.text < e.value;
      var more := if |es| == 1 then "" else " @@ " + TlcEntries(es[1..]);
      TlcPrint(e.key.text) + (" :> " + (TlcPrint(e.value.text) + more))
  }

  // ---------- the same as a layout ----------

  function Standard(t: Text): Text {
    match t
    case TSet(items, _) => TSet(StandardItems(items, ""), "")
    case TSeq(items, _) => TSeq(StandardItems(items, ""), "")
    case TRecord(fs, _) => TRecord(StandardFields(fs, ""), "")
    case TFunction(es) => TFunction(StandardEntries(es, ""))
    case TParen(inner) => TParen(Item("", Standard(inner.text), ""))
    case _ => t
  }

  function StandardItems(items: seq<Item>, before: string): (r: seq<Item>)
    ensures |r| == |items|
  {
    if items == [] then []
    else [Item(before, Standard(items[0].text), "")] + StandardItems(items[1..], " ")
  }

  function StandardFields(fs: seq<TField>, before: string): (r: seq<TField>)
    ensures |r| == |fs|
  {
    if fs == [] then []
    else
      [TField(before, fs[0].name, " ", Item(" ", Standard(fs[0].item.text), ""))] + StandardFields(fs[1..], " ")
  }

  function StandardEntries(es: seq<TEntry>, before: string): (r: seq<TEntry>)
    ensures |r| == |es|
  {
    if es == [] then []
    else
      var e := es[0];
      assert e.key < e && e.value < e && e.key.text < e.key && e.value.text < e.value;
      var first := TEntry(Item(before, Standard(e.key.text), " "),
                          Item(" ", Standard(e.value.text), if |es| == 1 then "" else " "));
      [first] + StandardEntries(es[1..], " ")
  }

  // ---------- the layout prints as TLC does ----------

  lemma JoinItem(before: string, p: string, more: string, close: string)
    ensures (before + (p + "")) + close == before + ((p + "") + close)
    ensures (before + (p + "")) + ("," + (" " + (more + close))) == before + ((p + (", " + more)) + close)
  {
    assert p + "" == p;
    assert "," + (" " + (more + close)) == (", " + more) + close;
  }

  lemma {:induction false} ItemsPrint(items: seq<Item>, before: string, close: string)
    requires items != []
    ensures PrintItems(StandardItems(items, before), "", close) == before + (TlcItems(items) + close)
    decreases items, 0
  {
    var p := TlcPrint(items[0].text);
    StandardPrints(items[0].text);
    var std := StandardItems(items, before);
    assert PrintItem(std[0]) == before + (p + "");
    if |items| > 1 {
      ItemsPrint(items[1..], " ", close);
      assert std[1..] == StandardItems(items[1..], " ");
      JoinItem(before, p, TlcItems(items[1..]), close);
    } else {
      JoinItem(before, p, "", close);
    }
  }

  lemma JoinField(before: string, name: string, p: string, more: string)
    ensures (before + (name + (" " + ("|->" + (" " + (p + "")))))) + "]" ==
            before + ((name + (" |-> " + (p + ""))) + "]")
    ensures (before + (name + (" " + ("|->" + (" " + (p + "")))))) + ("," + (" " + (more + "]"))) ==
            before + ((name + (" |-> " + (p + (", " + more)))) + "]")
  {
    assert p + "" == p;
    assert " " + ("|->" + (" " + p)) == " |-> " + p;
    assert "," + (" " + (more + "]")) == (", " + more) + "]";
    assert (" |-> " + p) + (", " + more) == " |-> " + (p + (", " + more));
  }

  lemma {:induction false} FieldsPrint(fs: seq<TField>, before: string)
    requires fs != []
    ensures PrintFields(StandardFields(fs, before), "") == before + (TlcFields(fs) + "]")
    decreases fs, 0
  {
    var p := TlcPrint(fs[0].item.text);
    StandardPrints(fs[0].item.text);
    var std := StandardFields(fs, before);
    assert PrintField(std[0]) == before + (fs[0].name + (" " + ("|->" + (" " + (p + "")))));
    if |fs| > 1 {
      FieldsPrint(fs[1..], " ");
      assert std[1..] == StandardFields(fs[1..], " ");
      JoinField(before, fs[0].name, p, TlcFields(fs[1..]));
    } else {
      JoinField(before, fs[0].name, p, "");
    }
  }

  lemma JoinEntry(before: string, k: string, v: string, more: string)
    ensures (before + (k + " ")) + (":>" + ((" " + (v + "")) + ")")) == before + ((k + (" :> " + (v + ""))) + ")")
    ensures (before + (k + " ")) + (":>" + ((" " + (v + " ")) + ("@@" + (" " + (more + ")"))))) ==
            before + ((k + (" :> " + (v + (" @@ " + more)))) + ")")
  {
    assert v + "" == v;
    assert (k + " ") + (":>" + ((" " + v) + ")")) == (k + (" :> " + v)) + ")";
    assert (v + " ") + ("@@" + (" " + (more + ")"))) == (v + (" @@ " + more)) + ")";
    assert (k + " ") + (":>" + (" " + ((v + (" @@ " + more)) + ")"))) == (k + (" :> " + (v + (" @@ " + more)))) + ")";
  }

  lemma {:induction false} EntriesPrint(es: seq<TEntry>, before: string)
    requires es != []
    ensures PrintEntries(StandardEntries(es, before)) == before + (TlcEntries(es) + ")")
    decreases es, 0
  {
    var e := es[0];
    assert e.key < e && e.value < e && e.key.text < e.key && e.value.text < e.value;
    StandardPrints(e.key.text);
    StandardPrints(e.value.text);
    var k, v := TlcPrint(e.key.text), TlcPrint(e.value.text);
    var std := StandardEntries(es, before);
    EntriesSplit(std);
    assert PrintItem(std[0].key) == before + (k + " ");
    if |es| > 1 {
      EntriesPrint(es[1..], " ");
      assert std[1..] == StandardEntries(es[1..], " ");
      JoinEntry(before, k, v, TlcEntries(es[1..]));
    } else {
      JoinEntry(before, k, v, "");
    }
  }

  lemma {:induction false} StandardPrints(t: Text)
    ensures Print(Standard(t)) == TlcPrint(t)
    decreases t, 1
  {
    match t {
      case TSet(items, _) =>
        if items != [] {
          ItemsPrint(items, "", "}");
        }
      case TSeq(items, _) =>
        if items != [] {
          ItemsPrint(items, "", ">>");
        }
      case TRecord(fs, _) =>
        if fs != [] {
          FieldsPrint(fs, "");
        }
      case TFunction(es) =>
        if es != [] {
          EntriesPrint(es, "");
        }
      case TParen(inner) =>
        StandardPrints(inner.text);
        assert PrintItem(Item("", Standard(inner.text), "")) == TlcPrint(inner.text);
      case _ =>
    }
  }

  // ---------- the layout is well formed and means the same ----------

  lemma {:induction false} StandardKeeps(t: Text)
    ensures TextOk(t) ==> TextOk(Standard(t))
    ensures Meaning(Standard(t)) == Meaning(t)
    decreases t, 1
  {
    match t {
      case TSet(items, _) => ItemsKeep(items, "");
      case TSeq(items, _) => ItemsKeep(items, "");
      case TRecord(fs, _) => FieldsKeep(fs, "");
      case TFunction(es) => EntriesKeep(es, "");
      case TParen(inner) =>
        StandardKeeps(inner.text);
        if TextOk(t) {
          assert ItemOk(inner);
          assert ItemOk(Item("", Standard(inner.text), ""));
        }
      case _ =>
    }
  }

  lemma {:induction false} ItemsKeep(items: seq<Item>, before: string)
    requires GapOk(before)
    ensures ItemsOk(items) ==> ItemsOk(StandardItems(items, before))
    ensures Meanings(StandardItems(items, before)) == Meanings(items)
    decreases items, 0
  {
    if items != [] {
      var std := StandardItems(items, before);
      StandardKeeps(items[0].text);
      ItemsKeep(items[1..], " ");
      assert std[1..] == StandardItems(items[1..], " ");
      if ItemsOk(items) {
        assert ItemOk(items[0]) && ItemsOk(items[1..]);
        assert ItemOk(std[0]);
        assert forall i | 1 <= i < |std| :: std[i] == std[1..][i - 1];
      }
    }
  }

  lemma {:induction false} FieldsKeep(fs: seq<TField>, before: string)
    requires GapOk(before)
    ensures FieldsOk(fs) ==> FieldsOk(StandardFields(fs, before))
    ensures FieldMeanings(StandardFields(fs, before)) == FieldMeanings(fs)
    decreases fs, 0
  {
    if fs != [] {
      var std := StandardFields(fs, before);
      StandardKeeps(fs[0].item.text);
      FieldsKeep(fs[1..], " ");
      assert std[1..] == StandardFields(fs[1..], " ");
      if FieldsOk(fs) {
        assert TFieldOk(fs[0]) && ItemOk(fs[0].item) && FieldsOk(fs[1..]);
        assert ItemOk(std[0].item);
        assert TFieldOk(std[0]);
        assert forall i | 1 <= i < |std| :: std[i] == std[1..][i - 1];
      }
    }
  }

  lemma {:induction false} EntriesKeep(es: seq<TEntry>, before: string)
    requires GapOk(before)
    ensures EntriesOk(es) ==> EntriesOk(StandardEntries(es, before))
    ensures EntryMeanings(StandardEntries(es, before)) == EntryMeanings(es)
    decreases es, 0
  {
    if es != [] {
      var e, std := es[0], StandardEntries(es, before);
      assert e.key < e && e.value < e && e.key.text < e.key && e.value.text < e.value;
      StandardKeeps(e.key.text);
      StandardKeeps(e.value.text);
      EntriesKeep(es[1..], " ");
      assert std[1..] == StandardEntries(es[1..], " ");
      if EntriesOk(es) {
        assert ItemOk(e.key) && ItemOk(e.value) && EntriesOk(es[1..]);
        assert ItemOk(std[0].key) && ItemOk(std[0].value);
        assert forall i | 1 <= i < |std| :: std[i] == std[1..][i - 1];
      }
    }
  }

  // ---------- the theorem ----------

  /** Every value that TLC prints is parsed back, to its canonical form. */
  lemma TlcPrintIsRead(t: Text)
    requires TextOk(t)
    ensures ParseValue(TlcPrint(t), 0) == Ok(Canon(Meaning(t)), |TlcPrint(t)|)
  {
    StandardPrints(t);
    StandardKeeps(t);
    ParseInvertsPrint(TlcPrint(t), 0, Standard(t));
  }

  function Plain(t: Text): Item { Item("", t, "") }

  lemma PlainInt(n: int)
    ensures ItemOk(Plain(TInt(n))) && Plain(TInt(n)).text == TInt(n)
  {
  }

  lemma TwoItems(m: int, n: int)
    ensures var items := [Plain(TInt(m)), Plain(TInt(n))];
            && ItemsOk(items) && Meanings(items) == [Int(m), Int(n)]
            && TlcItems(items) == TlcPrint(TInt(m)) + (", " + TlcPrint(TInt(n)))
  {
    var one, two := Plain(TInt(m)), Plain(TInt(n));
    PlainInt(m);
    PlainInt(n);
    assert [one, two][1..] == [two];
    assert TlcItems([two]) == TlcPrint(TInt(n)) + "" == TlcPrint(TInt(n));
    assert Meanings([two]) == [Int(n)] + [] == [Int(n)];
    assert Meanings([one, two]) == [Int(m)] + [Int(n)];
  }

  /** Two such printings, read as the values they are. */
  lemma ReadsSet()
    ensures ParseValue("{1, 2}", 0) == Ok(Canon(SetOf([Int(1), Int(2)])), 6)
  {
    var t := TSet([Plain(TInt(1)), Plain(TInt(2))], "");
    TwoItems(1, 2);
    assert Decimal(1) == "1" && Decimal(2) == "2";
    assert TlcPrint(t) == "{" + (("1" + (", " + "2")) + "}") == "{1, 2}";
    TlcPrintIsRead(t);
  }

  lemma OneEntry(m: int, n: int)
    ensures var es := [TEntry(Plain(TInt(m)), Plain(TInt(n)))];
            && EntriesOk(es) && EntryMeanings(es) == [Entry(Int(m), Int(n))]
            && TlcEntries(es) == TlcPrint(TInt(m)) + (" :> " + TlcPrint(TInt(n)))
  {
    var e := TEntry(Plain(TInt(m)), Plain(TInt(n)));
    PlainInt(m);
    PlainInt(n);
    assert TlcPrint(TInt(n)) + "" == TlcPrint(TInt(n));
    assert EntryMeanings([e]) == [Entry(Int(m), Int(n))] + [] == [Entry(Int(m), Int(n))];
  }

  lemma ReadsFunction()
    ensures ParseValue("(1 :> 2)", 0) == Ok(Canon(Function([Entry(Int(1), Int(2))])), 8)
  {
    var t := TFunction([TEntry(Plain(TInt(1)), Plain(TInt(2)))]);
    OneEntry(1, 2);
    assert TextOk(t);
    assert Decimal(1) == "1" && Decimal(2) == "2";
    assert TlcPrint(t) == "(" + (("1" + (" :> " + "2")) + ")") == "(1 :> 2)";
    TlcPrintIsRead(t);
  }

  // ---------- what is never read ----------

  /** A list that is read ends with its closing bracket: nothing unterminated is accepted. */
  lemma {:induction false} ItemsAreClosed(s: string, start: nat, close: string, acc: seq<Value>)
    requires |close| > 0
    ensures var l := ParseItems(s, start, close, acc);
            l.List? ==> l.pos >= start + |close| && At(s, l.pos - |close|, close) && acc <= l.elements
    decreases Left(s, start)
  {
    if start < |s| {
      var pos := SkipGap(s, start);
      if !At(s, pos, close) {
        var v := ParseElement(s, pos);
        if v.Ok? {
          ItemsAreClosed(s, v.pos, close, acc + [v.value]);
        }
      }
    }
  }

  lemma {:induction false} FieldsAreClosed(s: string, start: nat, acc: seq<Field>)
    ensures var l := ParseFields(s, start, acc);
            l.List? ==> start < l.pos <= |s| && s[l.pos - 1] == ']'
    decreases Left(s, start)
  {
    if start < |s| {
      var pos := SkipGap(s, start);
      if !(pos < |s| && s[pos] == ']') {
        var f := ParseField(s, pos);
        if f.FieldOk? {
          FieldsAreClosed(s, f.pos, Put(acc, f.name, f.value));
        }
      }
    }
  }

  lemma {:induction false} EntriesAreClosed(s: string, colon: nat, key: Value, acc: seq<Entry>)
    ensures var l := ParseEntries(s, colon, key, acc);
            l.List? ==> colon < l.pos <= |s| && s[l.pos - 1] == ')' && |l.elements| > |acc|
    decreases Left(s, colon)
  {
    if colon < |s| {
      var v := ParseOperand(s, colon);
      if v.Ok? && !(v.pos < |s| && s[v.pos] == ')') && At(s, v.pos, "@@") {
        var k := ParseOperand(s, v.pos);
        if k.Ok? {
          EntriesAreClosed(s, k.pos, k.value, acc + [Entry(key, v.value)]);
        }
      }
    }
  }

  lemma NothingToRead(s: string, start: nat)
    requires forall i | start <= i < |s| :: s[i] == ' ' || s[i] == '\t' || s[i] == '\n'
    ensures ParseValue(s, start) == Error
  {
    AllGap(s, start);
  }

  lemma {:induction false} AllGap(s: string, start: nat)
    requires forall i | start <= i < |s| :: s[i] == ' ' || s[i] == '\t' || s[i] == '\n'
    ensures SkipGap(s, start) >= |s|
    decreases |s| - start
  {
    if start < |s| {
      AllGap(s, start + 1);
    }
  }

  /** A value starts with a letter, an underscore, a digit, a minus sign, a quote or an opening bracket. */
  lemma NoSuchStart(s: string, pos: nat)
    requires pos < |s|
    requires var c := s[pos];
             !( || 'a' <= c <= 'z' || 'A' <= c <= 'Z' || c == '_' || '0' <= c <= '9' || c == '-' || c == '"'
                || c == '{' || c == '<' || c == '[' || c == '(' || c == ' ' || c == '\t' || c == '\n')
    ensures ParseValue(s, pos) == Error
  {
    NoGap(s, pos);
    NotAt(s, pos, "TRUE");
    NotAt(s, pos, "FALSE");
    NotAt(s, pos, "<<");
    assert ParseValue(s, pos) == ParseAt(s, pos) == ParseOther(s, pos);
  }

  /** A minus sign needs a digit after it. */
  lemma LoneMinus(s: string, pos: nat)
    requires pos < |s| && s[pos] == '-' && (pos + 1 == |s| || !('0' <= s[pos + 1] <= '9'))
    ensures ParseValue(s, pos) == Error
  {
    NoGap(s, pos);
    NotAt(s, pos, "TRUE");
    NotAt(s, pos, "FALSE");
    assert ParseValue(s, pos) == ParseAt(s, pos) == ParseOther(s, pos) == ParseInteger(s, pos);
  }

  /** A string without a closing quote takes in the rest of the text, and ends one past it. */
  lemma UnterminatedString(s: string, pos: nat)
    requires pos < |s| && s[pos] == '"' && forall i | pos < i < |s| :: s[i] != '"' && s[i] != '\\'
    ensures ParseValue(s, pos) == Ok(Str(s[pos + 1..]), |s| + 1)
  {
    NoGap(s, pos);
    NotAt(s, pos, "TRUE");
    NotAt(s, pos, "FALSE");
    RunsOn(s, pos + 1);
    assert Slice(s, pos + 1, |s|) == s[pos + 1..];
    assert ParseValue(s, pos) == ParseAt(s, pos) == ParseOther(s, pos) == ParseString(s, pos);
  }

  lemma {:induction false} RunsOn(s: string, pos: nat)
    requires pos <= |s| && forall i | pos <= i < |s| :: s[i] != '"' && s[i] != '\\'
    ensures StringEnd(s, pos) == |s|
    decreases |s| - pos
  {
    if pos < |s| {
      RunsOn(s, pos + 1);
    }
  }

  /** Commas between elements are optional: without one the next element is read where the gap ends. */
  lemma CommaIsOptional(s: string, pos: nat, close: string, acc: seq<Value>, v: Value, end: nat)
    requires |close| > 0 && pos < |s| && SkipGap(s, pos) == pos && !At(s, pos, close)
    requires ParseValue(s, pos) == Ok(v, end) && (SkipGap(s, end) >= |s| || s[SkipGap(s, end)] != ',')
    ensures ParseItems(s, pos, close, acc) == ParseItems(s, SkipGap(s, end), close, acc + [v])
  {
  }
}
