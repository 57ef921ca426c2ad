/**
 The recursive-descent parser for TLC values: what it computes (`ParseValue` and the loop functions)
 and the imperative parser with its position-advancing loops, proved to compute exactly that.

 Character classes are the ASCII ones.
 */
module TlcParser {
  import opened TlcOrder
  import opened TlcCanonical

  datatype Parsed = Ok(value: Value, pos: nat) | Error

  datatype ParsedList<T> = List(elements: seq<T>, pos: nat) | Broken

  // ---------- scanning ----------

  predicate IsGap(c: char) { c == ' ' || c == '\t' || c == '\n' }

  predicate IsDigit(c: char) { '0' <= c <= '9' }

  predicate IsAlpha(c: char) { 'a' <= c <= 'z' || 'A' <= c <= 'Z' }

  predicate IsWord(c: char) { IsAlpha(c) || IsDigit(c) || c == '_' }

  /** Characters a field name is stripped of. */
  predicate IsSpace(c: char) {
    IsGap(c) || c == '\r' || c == '\U{0B}' || c == '\U{0C}' || '\U{1C}' <= c <= '\U{1F}'
  }

  predicate InName(c: char) { !IsGap(c) && c != '|' }

  predicate At(s: string, pos: nat, t: string) {
    pos + |t| <= |s| && forall i | 0 <= i < |t| :: s[pos + i] == t[i]
  }

  /** The first position from pos on whose character is not of the class. */
  function Scan(s: string, pos: nat, p: char -> bool): (end: nat)
    ensures pos <= end && (pos <= |s| ==> end <= |s|)
    decreases |s| - pos
  {
    if pos < |s| && p(s[pos]) then Scan(s, pos + 1, p) else pos
  }

  lemma {:induction false} ScanIs(s: string, pos: nat, p: char -> bool)
    ensures var end := Scan(s, pos, p);
            && (forall k | pos <= k < end :: k < |s| && p(s[k]))
            && (end < |s| ==> !p(s[end]))
    decreases |s| - pos
  {
    if pos < |s| && p(s[pos]) {
      ScanIs(s, pos + 1, p);
    }
  }

  function SkipGap(s: string, pos: nat): nat { Scan(s, pos, IsGap) }

  /** Just past the last character of a string literal whose text starts at pos; may pass the end. */
  function StringEnd(s: string, pos: nat): (end: nat)
    ensures pos <= end
    decreases |s| - pos
  {
    if pos < |s| && s[pos] != '"' then StringEnd(s, if s[pos] == '\\' then pos + 2 else pos + 1) else pos
  }

  function Slice(s: string, lo: nat, hi: nat): string
    requires lo <= hi
  {
    if lo >= |s| then "" else if hi <= |s| then s[lo..hi] else s[lo..]
  }

  function Strip(s: string): string {
    if s == "" then s
    else if IsSpace(s[0]) then Strip(s[1..])
    else if IsSpace(s[|s| - 1]) then Strip(s[..|s| - 1])
    else s
  }

  function DigitsValue(s: string): int
    requires forall i | 0 <= i < |s| :: IsDigit(s[i])
  {
    if s == "" then 0 else 10 * DigitsValue(s[..|s| - 1]) + (s[|s| - 1] as int - '0' as int)
  }

  /** A dictionary assignment: a known name keeps its place and gets the new value. */
  function Put(fs: seq<Field>, name: string, v: Value): seq<Field> {
    if fs == [] then [Field(name, v)]
    else if fs[0].name == name then [Field(name, v)] + fs[1..]
    else [fs[0]] + Put(fs[1..], name, v)
  }

  function PutAll(acc: seq<Field>, fs: seq<Field>): seq<Field>
    decreases fs
  {
    if fs == [] then acc else PutAll(Put(acc, fs[0].name, fs[0].value), fs[1..])
  }

  /** A new name goes to the end. */
  lemma {:induction false} PutNew(fs: seq<Field>, name: string, v: Value)
    requires forall i | 0 <= i < |fs| :: fs[i].name != name
    ensures Put(fs, name, v) == fs + [Field(name, v)]
  {
    if fs != [] {
      PutNew(fs[1..], name, v);
    }
  }

  /** A known name keeps its place and takes the new value. */
  lemma {:induction false} PutAgain(fs: seq<Field>, i: nat, name: string, v: Value)
    requires i < |fs| && fs[i].name == name && forall j | 0 <= j < i :: fs[j].name != name
    ensures Put(fs, name, v) == fs[i := Field(name, v)]
  {
    if i > 0 {
      PutAgain(fs[1..], i - 1, name, v);
      assert fs[i := Field(name, v)] == [fs[0]] + fs[1..][i - 1 := Field(name, v)];
    } else {
      assert fs[0 := Field(name, v)] == [Field(name, v)] + fs[1..];
    }
  }

  predicate Blank(c: char) {
    c == ' ' || c == '\t' || c == '\n' || c == '\r' || c == '\U{0B}' || c == '\U{0C}' || '\U{1C}' <= c <= '\U{1F}'
  }

  /** Stripping takes away exactly the white space around a word. */
  lemma {:induction false} StripTrims(before: string, word: string, after: string)
    requires (forall i | 0 <= i < |before| :: Blank(before[i])) && forall i | 0 <= i < |after| :: Blank(after[i])
    requires word != "" && !Blank(word[0]) && !Blank(word[|word| - 1])
    ensures Strip(before + word + after) == word
    decreases |before| + |after|
  {
    var s := before + word + after;
    if before != "" {
      assert s[1..] == before[1..] + word + after;
      StripTrims(before[1..], word, after);
    } else if after != "" {
      assert s[|s| - 1] == after[|after| - 1];
      assert s[..|s| - 1] == before + word + after[..|after| - 1];
      StripTrims(before, word, after[..|after| - 1]);
    } else {
      assert s == word;
    }
  }

  function Left(s: string, pos: nat): nat {
    if pos < |s| then |s| - pos else 0
  }

  // ---------- what the parser computes ----------

  function ParseValue(s: string, start: nat): (r: Parsed)
    ensures r.Ok? ==> r.pos > start && start < |s|
    decreases Left(s, start), 0, 2
  {
    ParseAt(s, SkipGap(s, start))
  }

  function ParseAt(s: string, pos: nat): (r: Parsed)
    ensures r.Ok? ==> r.pos > pos && pos < |s|
    decreases Left(s, pos), 0, 1
  {
    if pos >= |s| then Error
    else if At(s, pos, "TRUE") then Ok(Bool(true), pos + 4)
    else if At(s, pos, "FALSE") then Ok(Bool(false), pos + 5)
    else ParseOther(s, pos)
  }

  function ParseOther(s: string, pos: nat): (r: Parsed)
    requires pos < |s|
    ensures r.Ok? ==> r.pos > pos
    decreases Left(s, pos), 0, 0
  {
    var c := s[pos];
    if c == '-' || IsDigit(c) then ParseInteger(s, pos)
    else if c == '"' then ParseString(s, pos)
    else if c == '{' then AsSet(ParseItems(s, pos + 1, "}", []))
    else if At(s, pos, "<<") then AsSeq(ParseItems(s, pos + 2, ">>", []))
    else if c == '[' then AsRecord(ParseFields(s, pos + 1, []))
    else if c == '(' then ParseParenthesized(s, pos + 1)
    else if IsAlpha(c) || c == '_' then ParseName(s, pos)
    else Error
  }

  function AsSet(l: ParsedList<Value>): Parsed {
    if l.List? then Ok(SetOf(SortBy(l.elements, SortKey)), l.pos) else Error
  }

  function AsSeq(l: ParsedList<Value>): Parsed {
    if l.List? then Ok(SeqOf(l.elements), l.pos) else Error
  }

  function AsRecord(l: ParsedList<Field>): Parsed {
    if l.List? then Ok(Record(l.elements), l.pos) else Error
  }

  function AsFunction(l: ParsedList<Entry>): Parsed {
    if l.List? then Ok(Function(SortBy(l.elements, EntryKey)), l.pos) else Error
  }

  function ParseString(s: string, pos: nat): (r: Parsed)
    ensures r.Ok? ==> r.pos > pos
  {
    var end := StringEnd(s, pos + 1);
    Ok(Str(Slice(s, pos + 1, end)), end + 1)
  }

  function ParseName(s: string, pos: nat): (r: Parsed)
    requires pos < |s| && (IsAlpha(s[pos]) || s[pos] == '_')
    ensures r.Ok? && r.pos > pos
  {
    assert IsWord(s[pos]) && Scan(s, pos, IsWord) == Scan(s, pos + 1, IsWord);
    var end := Scan(s, pos, IsWord);
    Ok(Str(s[pos..end]), end)
  }

  function ParseInteger(s: string, pos: nat): (r: Parsed)
    requires pos < |s| && (s[pos] == '-' || IsDigit(s[pos]))
    ensures r.Ok? ==> r.pos > pos
  {
    var digits := if s[pos] == '-' then pos + 1 else pos;
    var end := Scan(s, digits, IsDigit);
    if end == digits then Error
    else
      ScanIs(s, digits, IsDigit);
      var n := DigitsValue(s[digits..end]);
      Ok(Int(if s[pos] == '-' then -n else n), end)
  }

  function ParseParenthesized(s: string, start: nat): (r: Parsed)
    ensures r.Ok? ==> r.pos > start
    decreases Left(s, start), 3
  {
    var first := SkipGap(s, start);
    if first < |s| && s[first] == ')' then Ok(Function([]), first + 1)
    else
      var k := ParseValue(s, first);
      if k.Error? then Error
      else
        var next := SkipGap(s, k.pos);
        if At(s, next, ":>") then AsFunction(ParseEntries(s, next, k.value, []))
        else if next < |s| && s[next] == ')' then Ok(k.value, next + 1)
        else Error
  }

  function SkipComma(s: string, pos: nat): (r: nat)
    ensures r >= pos
  {
    if pos < |s| && s[pos] == ',' then pos + 1 else pos
  }

  /** One element of a list: a value, the gap after it, and a comma if there is one. */
  function ParseElement(s: string, start: nat): (r: Parsed)
    ensures r.Ok? ==> r.pos > start && start < |s|
    decreases Left(s, start), 1
  {
    var v := ParseValue(s, start);
    if v.Error? then Error else Ok(v.value, SkipComma(s, SkipGap(s, v.pos)))
  }

  /** The elements of a set or sequence up to its closing bracket. */
  function ParseItems(s: string, start: nat, close: string, acc: seq<Value>): (r: ParsedList<Value>)
    requires |close| > 0
    ensures r.List? ==> r.pos > start
    decreases Left(s, start), 3
  {
    if start >= |s| then Broken
    else
      var pos := SkipGap(s, start);
      if At(s, pos, close) then List(acc, pos + |close|)
      else
        var v := ParseElement(s, pos);
        if v.Error? then Broken else ParseItems(s, v.pos, close, acc + [v.value])
  }

  function ParseFields(s: string, start: nat, acc: seq<Field>): (r: ParsedList<Field>)
    ensures r.List? ==> r.pos > start
    decreases Left(s, start), 3
  {
    if start >= |s| then Broken
    else
      var pos := SkipGap(s, start);
      if pos < |s| && s[pos] == ']' then List(acc, pos + 1)
      else
        var f := ParseField(s, pos);
        if f.NoField? then Broken else ParseFields(s, f.pos, Put(acc, f.name, f.value))
  }

  datatype ParsedField = FieldOk(name: string, value: Value, pos: nat) | NoField

  /** One field of a record: a name, an arrow, and an element. */
  function ParseField(s: string, start: nat): (r: ParsedField)
    ensures r.FieldOk? ==> r.pos > start && start < |s|
    decreases Left(s, start), 2
  {
    var nameEnd := Scan(s, start, InName);
    var arrow := SkipGap(s, nameEnd);
    if !At(s, arrow, "|->") then NoField
    else
      var v := ParseElement(s, arrow + 3);
      if v.Error? then NoField else FieldOk(Strip(Slice(s, start, nameEnd)), v.value, v.pos)
  }

  /** From the `:>` of an entry with the given argument. */
  function ParseEntries(s: string, colon: nat, key: Value, acc: seq<Entry>): (r: ParsedList<Entry>)
    ensures r.List? ==> r.pos > colon
    decreases Left(s, colon), 3
  {
    if colon >= |s| then Broken
    else
      var v := ParseOperand(s, colon);
      if v.Error? then Broken
      else
        var es := acc + [Entry(key, v.value)];
        if v.pos < |s| && s[v.pos] == ')' then List(es, v.pos + 1)
        else if At(s, v.pos, "@@") then
          var k := ParseOperand(s, v.pos);
          if k.Error? then Broken else ParseEntries(s, k.pos, k.value, es)
        else Broken
  }

  /** The value after a two-character operator, with the gaps around it. */
  function ParseOperand(s: string, op: nat): (r: Parsed)
    ensures r.Ok? ==> r.pos > op + 2
    decreases Left(s, op), 1
  {
    var v := ParseValue(s, SkipGap(s, op + 2));
    if v.Error? then Error else Ok(v.value, SkipGap(s, v.pos))
  }

  // ---------- the imperative parser ----------

  method ScanLoop(s: string, start: nat, p: char -> bool) returns (pos: nat)
    ensures pos == Scan(s, start, p)
  {
    pos := start;
    while pos < |s| && p(s[pos])
      invariant start <= pos && Scan(s, pos, p) == Scan(s, start, p)
      decreases |s| - pos
    {
      pos := pos + 1;
    }
  }

  method StringLoop(s: string, start: nat) returns (end: nat)
    ensures end == StringEnd(s, start)
  {
    end := start;
    while end < |s| && s[end] != '"'
      invariant start <= end && StringEnd(s, end) == StringEnd(s, start)
      decreases |s| - end
    {
      if s[end] == '\\' {
        end := end + 1;
      }
      end := end + 1;
    }
  }

  method ReadValue(s: string, start: nat) returns (r: Parsed)
    ensures r == ParseValue(s, start)
    decreases Left(s, start), 0, 1
  {
    var pos := ScanLoop(s, start, IsGap);
    assert ParseValue(s, start) == ParseAt(s, pos);
    if pos >= |s| {
      return Error;
    }
    if At(s, pos, "TRUE") {
      return Ok(Bool(true), pos + 4);
    }
    if At(s, pos, "FALSE") {
      return Ok(Bool(false), pos + 5);
    }
    r := ReadOther(s, pos);
  }

  /** Any value but a boolean, by its first character. */
  method ReadOther(s: string, pos: nat) returns (r: Parsed)
    requires pos < |s|
    ensures r == ParseOther(s, pos)
    decreases Left(s, pos), 0, 0
  {
    var c := s[pos];
    if c == '-' || IsDigit(c) {
      r := ReadInteger(s, pos);
      return;
    }
    if c == '"' {
      var end := StringLoop(s, pos + 1);
      return Ok(Str(Slice(s, pos + 1, end)), end + 1);
    }
    if c == '{' {
      var items := ReadItems(s, pos + 1, "}");
      return AsSet(items);
    }
    if At(s, pos, "<<") {
      var items := ReadItems(s, pos + 2, ">>");
      return AsSeq(items);
    }
    if c == '[' {
      var fields := ReadFields(s, pos + 1);
      return AsRecord(fields);
    }
    if c == '(' {
      r := ReadParenthesized(s, pos + 1);
      return;
    }
    if IsAlpha(c) || c == '_' {
      var end := ScanLoop(s, pos, IsWord);
      return Ok(Str(s[pos..end]), end);
    }
    return Error;
  }

  method ReadInteger(s: string, pos: nat) returns (r: Parsed)
    requires pos < |s| && (s[pos] == '-' || IsDigit(s[pos]))
    ensures r == ParseInteger(s, pos)
  {
    var digits := if s[pos] == '-' then pos + 1 else pos;
    var end := ScanLoop(s, digits, IsDigit);
    if end == digits {
      return Error;
    }
    ScanIs(s, digits, IsDigit);
    var n := DigitsValue(s[digits..end]);
    return Ok(Int(if s[pos] == '-' then -n else n), end);
  }

  method ReadElement(s: string, start: nat) returns (r: Parsed)
    ensures r == ParseElement(s, start)
    decreases Left(s, start), 1
  {
    var v := ReadValue(s, start);
    if v.Error? {
      return Error;
    }
    var pos := ScanLoop(s, v.pos, IsGap);
    if pos < |s| && s[pos] == ',' {
      pos := pos + 1;
    }
    return Ok(v.value, pos);
  }

  /** The loop that collects the elements of a set or of a sequence. */
  method ReadItems(s: string, start: nat, close: string) returns (r: ParsedList<Value>)
    requires |close| > 0
    ensures r == ParseItems(s, start, close, [])
    decreases Left(s, start), 3
  {
    var pos := start;
    var elements: seq<Value> := [];
    while pos < |s|
      invariant start <= pos && ParseItems(s, pos, close, elements) == ParseItems(s, start, close, [])
      decreases Left(s, pos)
    {
      var next := ScanLoop(s, pos, IsGap);
      if At(s, next, close) {
        return List(elements, next + |close|);
      }
      var v := ReadElement(s, next);
      if v.Error? {
        return Broken;
      }
      elements := elements + [v.value];
      pos := v.pos;
    }
    return Broken;
  }

  method ReadFields(s: string, start: nat) returns (r: ParsedList<Field>)
    ensures r == ParseFields(s, start, [])
    decreases Left(s, start), 3
  {
    var pos := start;
    var fields: seq<Field> := [];
    while pos < |s|
      invariant start <= pos && ParseFields(s, pos, fields) == ParseFields(s, start, [])
      decreases Left(s, pos)
    {
      var next := ScanLoop(s, pos, IsGap);
      if next < |s| && s[next] == ']' {
        return List(fields, next + 1);
      }
      var f := ReadField(s, next);
      if f.NoField? {
        return Broken;
      }
      fields := Put(fields, f.name, f.value);
      pos := f.pos;
    }
    return Broken;
  }

  method ReadField(s: string, start: nat) returns (r: ParsedField)
    ensures r == ParseField(s, start)
    decreases Left(s, start), 2
  {
    var nameEnd := ScanLoop(s, start, InName);
    var arrow := ScanLoop(s, nameEnd, IsGap);
    if !At(s, arrow, "|->") {
      return NoField;
    }
    var v := ReadElement(s, arrow + 3);
    if v.Error? {
      return NoField;
    }
    return FieldOk(Strip(Slice(s, start, nameEnd)), v.value, v.pos);
  }

  /** Just after an opening parenthesis: a function, or a value in parentheses. */
  method ReadParenthesized(s: string, start: nat) returns (r: Parsed)
    requires 0 < start <= |s|
    ensures r == ParseParenthesized(s, start)
    decreases Left(s, start), 3
  {
    var pos := ScanLoop(s, start, IsGap);
    if pos < |s| && s[pos] == ')' {
      return Ok(Function([]), pos + 1);
    }
    var first := ReadValue(s, pos);
    if first.Error? {
      return Error;
    }
    pos := ScanLoop(s, first.pos, IsGap);
    if !At(s, pos, ":>") {
      if pos < |s| && s[pos] == ')' {
        return Ok(first.value, pos + 1);
      }
      return Error;
    }
    var entries := ReadEntries(s, pos, first.value);
    return AsFunction(entries);
  }

  method ReadEntries(s: string, colon: nat, firstKey: Value) returns (r: ParsedList<Entry>)
    ensures r == ParseEntries(s, colon, firstKey, [])
    decreases Left(s, colon), 3
  {
    var pos, key := colon, firstKey;
    var entries: seq<Entry> := [];
    while pos < |s|
      invariant colon <= pos && ParseEntries(s, pos, key, entries) == ParseEntries(s, colon, firstKey, [])
      decreases Left(s, pos)
    {
      var v := ReadOperand(s, pos);
      if v.Error? {
        return Broken;
      }
      entries := entries + [Entry(key, v.value)];
      if v.pos < |s| && s[v.pos] == ')' {
        return List(entries, v.pos + 1);
      }
      if !At(s, v.pos, "@@") {
        return Broken;
      }
      var k := ReadOperand(s, v.pos);
      if k.Error? {
        return Broken;
      }
      key, pos := k.value, k.pos;
    }
    return Broken;
  }

  method ReadOperand(s: string, op: nat) returns (r: Parsed)
    ensures r == ParseOperand(s, op)
    decreases Left(s, op), 1
  {
    var start := ScanLoop(s, op + 2, IsGap);
    var v := ReadValue(s, start);
    if v.Error? {
      return Error;
    }
    var pos := ScanLoop(s, v.pos, IsGap);
    return Ok(v.value, pos);
  }
}
