/**
 Blanking comments and strings while keeping every offset.  `IsCode` says, token by token, which
 positions lie outside them; the scanner with its three mode flags blanks all the others.

 The scanner never clears its block-comment flag, so it reads a block comment as running to the
 end of the text.  `closes` tells the two readings apart: true for the documented one.
 */
module CommentBlanker {

  // ---------- tokens ----------

  function LineEnd(t: string, i: nat): (e: nat)
    requires i <= |t|
    ensures i <= e <= |t| && (e < |t| ==> t[e] == '\n')
    ensures forall k | i <= k < e :: t[k] != '\n'
    decreases |t| - i
  {
    if i < |t| && t[i] != '\n' then LineEnd(t, i + 1) else i
  }

  predicate ClosesBlock(t: string, i: nat) {
    i + 1 < |t| && t[i] == '*' && t[i + 1] == '/'
  }

  /** Just past the first closing mark at or after i, or the end of the text. */
  function BlockEnd(t: string, i: nat): (e: nat)
    requires i <= |t|
    ensures i <= e <= |t|
    ensures e < |t| ==> e >= i + 2 && ClosesBlock(t, e - 2)
    ensures forall k | i <= k < e - 2 :: !ClosesBlock(t, k)
    decreases |t| - i
  {
    if i == |t| then i
    else if ClosesBlock(t, i) then i + 2
    else BlockEnd(t, i + 1)
  }

  /** Just past the quote that closes a string whose text goes on at i, or the end of the text. */
  function QuoteEnd(t: string, i: nat): (e: nat)
    ensures e <= |t| && (i <= |t| ==> i <= e)
    decreases |t| - i
  {
    if i >= |t| then |t|
    else if t[i] == '\\' then QuoteEnd(t, i + 2)
    else if t[i] == '"' then i + 1
    else QuoteEnd(t, i + 1)
  }

  /** The text from i to j is the inside of a string: escapes complete, no quote unescaped. */
  predicate StringBody(t: string, i: nat, j: nat)
    requires j <= |t|
    decreases j - i
  {
    i == j || (i < j && if t[i] == '\\' then StringBody(t, i + 2, j) else t[i] != '"' && StringBody(t, i + 1, j))
  }

  lemma {:induction false} StringCloses(t: string, i: nat, j: nat)
    requires j < |t| && StringBody(t, i, j) && t[j] == '"'
    ensures QuoteEnd(t, i) == j + 1
    decreases j - i
  {
    if i < j {
      StringCloses(t, if t[i] == '\\' then i + 2 else i + 1, j);
    }
  }

  predicate Opens(t: string, i: nat)
    requires i < |t|
  {
    t[i] == '"' || (t[i] == '/' && i + 1 < |t| && (t[i + 1] == '/' || t[i + 1] == '*'))
  }

  /** The end of the comment or string that opens at i; `closes` says whether a closing mark ends a block comment. */
  function CloseOf(t: string, i: nat, closes: bool): (e: nat)
    requires i < |t| && Opens(t, i)
    ensures i < e <= |t|
  {
    if t[i] == '"' then QuoteEnd(t, i + 1)
    else if t[i + 1] == '/' then LineEnd(t, i + 1)
    else if closes then BlockEnd(t, i + 2)
    else |t|
  }

  /** Position k is outside comments and strings, when i is. */
  predicate IsCode(t: string, i: nat, k: nat, closes: bool)
    requires i <= k < |t|
    decreases k - i
  {
    if Opens(t, i) then
      CloseOf(t, i, closes) <= k && IsCode(t, CloseOf(t, i, closes), k, closes)
    else
      k == i || IsCode(t, i + 1, k, closes)
  }

  /** The text with everything but code and newlines blanked. */
  function Blank(t: string, closes: bool): (r: string)
    ensures |r| == |t|
  {
    seq(|t|, k requires 0 <= k < |t| => if t[k] == '\n' || IsCode(t, 0, k, closes) then t[k] else ' ')
  }

  // ---------- the scanner ----------

  datatype Mode = Code | Line | Block | Quoted

  /** Where the scanner is next outside comments and strings: never again, once a block comment has opened. */
  function Resume(t: string, m: Mode, i: nat): (e: nat)
    requires i <= |t| || m.Quoted? || m.Block?
    ensures e <= |t| && (i <= |t| ==> i <= e)
  {
    match m
    case Code => i
    case Line => LineEnd(t, i)
    case Block => |t|
    case Quoted => QuoteEnd(t, i)
  }

  /** From i up to e nothing is code, and from e on the tokens are those of a scan begun there. */
  predicate Scanned(t: string, i: nat, e: nat)
    requires e <= |t|
  {
    && (forall k | i <= k < e :: !IsCode(t, 0, k, false))
    && (forall k | e <= k < |t| :: IsCode(t, 0, k, false) == IsCode(t, e, k, false))
  }

  lemma ScanPlain(t: string, i: nat)
    requires i < |t| && Scanned(t, i, i) && !Opens(t, i)
    ensures Blank(t, false)[i] == t[i] && Scanned(t, i + 1, i + 1)
  {
  }

  lemma ScanOpen(t: string, i: nat)
    requires i < |t| && Scanned(t, i, i) && Opens(t, i)
    ensures Scanned(t, i, CloseOf(t, i, false))
  {
    var e := CloseOf(t, i, false);
    forall k | i <= k < |t|
      ensures IsCode(t, 0, k, false) == (e <= k && IsCode(t, e, k, false))
    {
      assert IsCode(t, 0, k, false) == IsCode(t, i, k, false);
    }
  }

  function Hide(c: char): char { if c == '\n' then c else ' ' }

  /** Characters before the resumption are hidden. */
  lemma Hidden(t: string, i: nat, e: nat, j: nat)
    requires i <= j <= e <= |t| && Scanned(t, i, e)
    ensures Scanned(t, j, e) && forall k | i <= k < j :: Blank(t, false)[k] == Hide(t[k])
  {
  }

  /** The scanner's state at i: what is left is as the mode says. */
  predicate InMode(t: string, m: Mode, i: nat) {
    (i <= |t| || m.Quoted? || m.Block?) && Scanned(t, i, Resume(t, m, i))
  }

  lemma PlainStep(t: string, i: nat)
    requires i < |t| && InMode(t, Code, i) && !Opens(t, i)
    ensures InMode(t, Code, i + 1) && Blank(t, false)[i] == t[i]
  {
    ScanPlain(t, i);
  }

  lemma LineStep(t: string, i: nat)
    requires i < |t| && InMode(t, Line, i)
    ensures InMode(t, if t[i] == '\n' then Code else Line, i + 1) && Blank(t, false)[i] == Hide(t[i])
  {
    if t[i] == '\n' {
      ScanPlain(t, i);
    } else {
      Hidden(t, i, LineEnd(t, i), i + 1);
    }
  }

  lemma BlockStep(t: string, i: nat)
    requires i < |t| && InMode(t, Block, i)
    ensures InMode(t, Block, i + 1) && Blank(t, false)[i] == Hide(t[i])
  {
    Hidden(t, i, |t|, i + 1);
  }

  lemma QuoteStep(t: string, i: nat)
    requires i < |t| && InMode(t, Quoted, i)
    ensures InMode(t, if t[i] == '"' then Code else Quoted, if t[i] == '\\' then i + 2 else i + 1)
    ensures Blank(t, false)[i] == Hide(t[i])
    ensures t[i] == '\\' && i + 1 < |t| ==> Blank(t, false)[i + 1] == Hide(t[i + 1])
  {
    var next := if t[i] == '\\' then i + 2 else i + 1;
    Hidden(t, i, QuoteEnd(t, i), if next <= |t| then next else |t|);
  }

  lemma OpenStep(t: string, i: nat)
    requires i < |t| && InMode(t, Code, i) && Opens(t, i)
    ensures Blank(t, false)[i] == ' '
    ensures t[i] == '"' ==> InMode(t, Quoted, i + 1)
    ensures t[i] == '/' && t[i + 1] == '/' ==> InMode(t, Line, i + 1)
    ensures t[i] == '/' && t[i + 1] == '*' ==> InMode(t, Block, i + 2) && Blank(t, false)[i + 1] == ' '
  {
    ScanOpen(t, i);
    Hidden(t, i, CloseOf(t, i, false), if t[i] == '/' && t[i + 1] == '*' then i + 2 else i + 1);
  }

  method StripComments(text: string) returns (r: string)
    ensures r == Blank(text, false)
  {
    var n := |text|;
    var out := text;
    var i := 0;
    var inLine, inBlock, inStr := false, false, false;
    ghost var mode, want := Code, Blank(text, false);
    while i < n
      invariant inLine == mode.Line? && inBlock == mode.Block? && inStr == mode.Quoted?
      invariant InMode(text, mode, i)
      invariant |out| == n
      invariant forall k | 0 <= k < n && k < i :: out[k] == want[k]
      invariant forall k | i <= k < n :: out[k] == text[k]
    {
      var c := text[i];
      var more := i + 1 < n;
      if inLine {
        LineStep(text, i);
        if c == '\n' {
          inLine, mode := false, Code;
        } else {
          out := out[i := ' '];
        }
      } else if inBlock {
        BlockStep(text, i);
        if c == '*' && more && text[i + 1] == '/' {
          BlockStep(text, i + 1);
          out := out[i := ' '];
          out := out[i + 1 := ' '];
          i := i + 2;
          continue;
        }
        if c != '\n' {
          out := out[i := ' '];
        }
      } else if inStr {
        QuoteStep(text, i);
        if c == '\\' {
          out := out[i := ' '];
          if more && text[i + 1] != '\n' {
            out := out[i + 1 := ' '];
          }
          i := i + 2;
          continue;
        }
        if c == '"' {
          inStr, mode := false, Code;
        }
        out := out[i := if c != '\n' then ' ' else c];
      } else if c == '/' && more && text[i + 1] == '/' {
        OpenStep(text, i);
        inLine, mode := true, Line;
        out := out[i := ' '];
      } else if c == '/' && more && text[i + 1] == '*' {
        OpenStep(text, i);
        inBlock, mode := true, Block;
        out := out[i := ' '];
        out := out[i + 1 := ' '];
        i := i + 2;
        continue;
      } else if c == '"' {
        OpenStep(text, i);
        inStr, mode := true, Quoted;
        out := out[i := ' '];
      } else {
        PlainStep(text, i);
      }
      i := i + 1;
    }
    assert out == want;
    return out;
  }

  // ---------- what either reading promises ----------

  /** No quote, no `//` and no `/` followed by a star. */
  predicate Clean(s: string) {
    && (forall i | 0 <= i < |s| :: s[i] != '"')
    && (forall i | 0 <= i < |s| - 1 :: !(s[i] == '/' && s[i + 1] == '/') && !(s[i] == '/' && s[i + 1] == '*'))
  }

  lemma {:induction false} CodeOpensNothing(t: string, i: nat, k: nat, closes: bool)
    requires i <= k < |t| && IsCode(t, i, k, closes)
    ensures !Opens(t, k)
    decreases k - i
  {
    if Opens(t, i) {
      CodeOpensNothing(t, CloseOf(t, i, closes), k, closes);
    } else if k != i {
      CodeOpensNothing(t, i + 1, k, closes);
    }
  }

  /** Newlines and code stay, and nothing else but spaces is left: no quote, no comment opener. */
  lemma KeepsPlaces(t: string, closes: bool)
    ensures forall k | 0 <= k < |t| ::
              && (Blank(t, closes)[k] == '\n' <==> t[k] == '\n')
              && (IsCode(t, 0, k, closes) ==> Blank(t, closes)[k] == t[k])
              && (!IsCode(t, 0, k, closes) ==> Blank(t, closes)[k] == Hide(t[k]))
    ensures Clean(Blank(t, closes))
  {
    var r := Blank(t, closes);
    forall k | 0 <= k < |t|
      ensures r[k] != '"' && (k + 1 < |t| ==> !(r[k] == '/' && r[k + 1] == '/') && !(r[k] == '/' && r[k + 1] == '*'))
    {
      if IsCode(t, 0, k, closes) {
        CodeOpensNothing(t, 0, k, closes);
      }
    }
  }

  lemma {:induction false} CleanIsCode(t: string, i: nat, k: nat, closes: bool)
    requires Clean(t) && i <= k < |t|
    ensures IsCode(t, i, k, closes)
    decreases k - i
  {
    if k != i {
      CleanIsCode(t, i + 1, k, closes);
    }
  }

  /** A text is unchanged exactly when it has no quote and no comment opener; hence a second pass changes nothing. */
  lemma UnchangedIffClean(t: string, closes: bool)
    ensures Blank(t, closes) == t <==> Clean(t)
    ensures Blank(Blank(t, closes), closes) == Blank(t, closes)
  {
    KeepsPlaces(t, closes);
    if Clean(t) {
      CleanUnchanged(t, closes);
    }
    CleanUnchanged(Blank(t, closes), closes);
  }

  lemma CleanUnchanged(t: string, closes: bool)
    requires Clean(t)
    ensures Blank(t, closes) == t
  {
    forall k | 0 <= k < |t|
      ensures Blank(t, closes)[k] == t[k]
    {
      CleanIsCode(t, 0, k, closes);
    }
  }

  // ---------- the scanner against its documentation ----------

  predicate OpensBlock(t: string, i: nat)
    requires i < |t|
  {
    t[i] == '/' && i + 1 < |t| && t[i + 1] == '*'
  }

  /** Where the first block comment opens, for a scan from i; the length where there is none. */
  function FirstBlock(t: string, i: nat): (b: nat)
    requires i <= |t|
    ensures i <= b <= |t| && (b < |t| ==> OpensBlock(t, b))
    decreases |t| - i
  {
    if i == |t| || OpensBlock(t, i) then i
    else FirstBlock(t, if Opens(t, i) then CloseOf(t, i, true) else i + 1)
  }

  /** Where the documentation says the first block comment ends. */
  function FirstBlockEnd(t: string): (e: nat)
    ensures e <= |t|
  {
    var b := FirstBlock(t, 0);
    if b == |t| then |t| else BlockEnd(t, b + 2)
  }

  /** Up to the first block comment the two readings agree; from there on the scanner sees no code. */
  lemma {:induction false} AgreeUpToBlock(t: string, i: nat, k: nat)
    requires i <= k < |t|
    ensures var b := FirstBlock(t, i);
            && (k < b ==> IsCode(t, i, k, false) == IsCode(t, i, k, true))
            && (b <= k ==> !IsCode(t, i, k, false) && (k < BlockEnd(t, b + 2) ==> !IsCode(t, i, k, true)))
    decreases k - i
  {
    if !OpensBlock(t, i) {
      var next := if Opens(t, i) then CloseOf(t, i, true) else i + 1;
      if next <= k {
        AgreeUpToBlock(t, next, k);
      }
    }
  }

  /** The scanner's output is the documented one up to the end of the first block comment, and blank after it. */
  lemma ScannerOutput(t: string, k: nat)
    requires k < |t|
    ensures Blank(t, false)[k] == if k < FirstBlockEnd(t) then Blank(t, true)[k] else Hide(t[k])
  {
    AgreeUpToBlock(t, 0, k);
  }

  /** Nothing but spaces, newlines, comments and strings follows the first block comment. */
  predicate NoCodeAfterBlock(t: string) {
    forall k | FirstBlockEnd(t) <= k < |t| && IsCode(t, 0, k, true) :: t[k] == ' ' || t[k] == '\n'
  }

  /** The scanner does what it documents exactly when no code follows the first block comment. */
  lemma DocumentedIffNoCodeAfterBlock(t: string)
    ensures Blank(t, false) == Blank(t, true) <==> NoCodeAfterBlock(t)
  {
    forall k: nat | k < |t|
      ensures Blank(t, false)[k] == if k < FirstBlockEnd(t) then Blank(t, true)[k] else Hide(t[k])
    {
      ScannerOutput(t, k);
    }
    if NoCodeAfterBlock(t) {
      assert forall k | 0 <= k < |t| :: Blank(t, false)[k] == Blank(t, true)[k];
    }
    if Blank(t, false) == Blank(t, true) {
      forall k | FirstBlockEnd(t) <= k < |t| && IsCode(t, 0, k, true)
        ensures t[k] == ' ' || t[k] == '\n'
      {
        assert Blank(t, true)[k] == t[k];
      }
    }
  }

  /** Code after a block comment is lost. */
  lemma CodeAfterBlockIsLost()
    ensures Blank("/**/x", true)[4] == 'x' && Blank("/**/x", false)[4] == ' '
  {
    var t := "/**/x";
    assert FirstBlock(t, 0) == 0;
    assert !ClosesBlock(t, 1) && ClosesBlock(t, 2);
    assert BlockEnd(t, 2) == 4;
    assert IsCode(t, 4, 4, true);
    assert CloseOf(t, 0, true) == 4;
  }
}
