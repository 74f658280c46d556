/**
 The grammar of a line, written out: words, quoted tokens and comments with blanks between them, and how a
 line can end. The line parser reads back what was spelled.
 */
module LineGrammar {
  import opened Tokenizer

  datatype Element =
    | Word(text: string)
    | Quote(mark: char, text: string)
    | Remark(text: string)

  datatype Ending =
    | Over
    | Comment(mark: char, text: string)
    | OpenRemark(text: string)
    | OpenQuote(mark: char, text: string)

  /** An element and the blanks after it. */
  datatype Part = Part(element: Element, gap: string)

  predicate Gap(gap: string) {
    forall c :: c in gap ==> c == ' ' || c == '\t'
  }

  predicate Mark(c: char) {
    c in "\"'`"
  }

  /** An escape at position `i`: a dollar sign, a backslash and a quotation mark. */
  predicate EscapeAt(text: string, i: nat) {
    i + 2 < |text| && text[i] == '$' && text[i + 1] == '\\' && Mark(text[i + 2])
  }

  predicate RemarkAt(text: string, i: nat) {
    i + 1 < |text| && text[i] == '/' && text[i + 1] == '*'
  }

  predicate RemarkEndAt(text: string, i: nat) {
    i + 1 < |text| && text[i] == '*' && text[i + 1] == '/'
  }

  /** A text that needs no quotes: it contains no blank and no comment and does not start with a quotation mark. */
  predicate WordOk(text: string) {
    && text != "" && !Mark(text[0])
    && forall i :: 0 <= i < |text| ==> text[i] !in " \t;#" && !RemarkAt(text, i) && !EscapeAt(text, i)
  }

  /** A text that may stand between these quotation marks: its own mark is escaped, so only the other two can make
      an escape by chance, or the mark at the end. */
  predicate QuoteOk(mark: char, text: string) {
    && Mark(mark)
    && (forall i :: 0 <= i < |text| && EscapeAt(text, i) ==> text[i + 2] == mark)
    && !(|text| >= 2 && text[|text| - 2] == '$' && text[|text| - 1] == '\\')
  }

  predicate RemarkOk(text: string) {
    forall i :: 0 <= i < |text| ==> !RemarkEndAt(text, i)
  }

  /** The text with each of its marks escaped. */
  function Escaped(mark: char, text: string): string {
    if text == "" then "" else (if text[0] == mark then "$\\" + [mark] else [text[0]]) + Escaped(mark, text[1..])
  }

  function Spelled(e: Element): string {
    match e
    case Word(text) => text
    case Quote(mark, text) => [mark] + (Escaped(mark, text) + [mark])
    case Remark(text) => "/*" + (text + "*/")
  }

  function SpelledEnding(e: Ending): string {
    match e
    case Over => ""
    case Comment(mark, text) => [mark] + text
    case OpenRemark(text) => "/*" + text
    case OpenQuote(mark, text) => [mark] + Escaped(mark, text)
  }

  function Spell(parts: seq<Part>, ending: Ending): string {
    if parts == [] then SpelledEnding(ending)
    else Spelled(parts[0].element) + (parts[0].gap + Spell(parts[1..], ending))
  }

  predicate EndingOk(e: Ending) {
    match e
    case Over => true
    case Comment(mark, _) => mark in ";#"
    case OpenRemark(text) => RemarkOk(text)
    case OpenQuote(mark, text) => QuoteOk(mark, text)
  }

  /** What may follow a word without a blank. */
  predicate StopsWord(rest: string) {
    rest == "" || rest[0] in ";#" || RemarkAt(rest, 0)
  }

  predicate PartsOk(parts: seq<Part>, ending: Ending) {
    parts != [] ==>
      && Gap(parts[0].gap) && PartsOk(parts[1..], ending)
      && match parts[0].element
         case Word(text) => WordOk(text) && (parts[0].gap != "" || StopsWord(Spell(parts[1..], ending)))
         case Quote(mark, text) => QuoteOk(mark, text)
         case Remark(text) => RemarkOk(text)
  }

  /** The tokens of a line; escapes are kept as written on request. */
  function TokensOf(parts: seq<Part>, raw: bool): seq<string> {
    if parts == [] then []
    else
      (match parts[0].element
       case Word(text) => [text]
       case Quote(mark, text) => [if raw then Escaped(mark, text) else text]
       case Remark(_) => []) + TokensOf(parts[1..], raw)
  }

  /** What the parser must find: the tokens; whether the line ends in a comment or inside a comment block; and an
      error, after the token, for a quotation that is not closed. */
  function Meant(parts: seq<Part>, ending: Ending, raw: bool): Parsed {
    match ending
    case Over => Parsed(TokensOf(parts, raw), false, false, false)
    case Comment(_, _) => Parsed(TokensOf(parts, raw), true, false, false)
    case OpenRemark(_) => Parsed(TokensOf(parts, raw), false, true, false)
    case OpenQuote(mark, text) =>
      Parsed(TokensOf(parts, raw) + [if raw then Escaped(mark, text) else text], false, false, true)
  }

  /* ---------- reading the parts ---------- */

  lemma EscapeIs(line: string, i: nat)
    ensures Tokenizer.Escape(line, i) <==> EscapeAt(line, i)
  {
  }

  lemma {:induction false} GapSkipped(line: string, i: nat, gap: string)
    requires Gap(gap) && Holds(line, i, gap) && (i + |gap| < |line| ==> line[i + |gap|] !in " \t")
    ensures SkipBlanks(line, i) == i + |gap|
    decreases |gap|
  {
    hide Holds;
    if gap == "" {
      HoldsBound(line, i, gap);
    } else {
      assert gap == [gap[0]] + gap[1..];
      HoldsParts(line, i, [gap[0]], gap[1..]);
      HoldsChar(line, i, [gap[0]], 0);
      assert gap[0] in gap && forall c :: c in gap[1..] ==> c in gap;
      GapSkipped(line, i + 1, gap[1..]);
    }
  }

  lemma HoldsBound(line: string, i: nat, text: string)
    requires Holds(line, i, text)
    ensures i + |text| <= |line|
  {
  }

  /** A word, character by character; what follows ends it. */
  lemma {:induction false} WordReads(line: string, i: nat, text: string, raw: bool)
    requires Holds(line, i, text)
    requires forall k :: 0 <= k < |text| ==> text[k] !in " \t;#" && !RemarkAt(text, k) && !EscapeAt(text, k)
    requires var end := i + |text|;
             end == |line| || line[end] in " \t;#" || (RemarkAt(line, end) && end + 1 < |line|)
    ensures TokenEnd(line, i, NO_QUOTE) == i + |text| && Content(line, i, NO_QUOTE, raw) == text
    decreases |text|
  {
    hide Holds;
    HoldsBound(line, i, text);
    if text == "" {
      WordOver(line, i, raw);
    } else {
      var rest := text[1..];
      assert text == [text[0]] + rest;
      HoldsParts(line, i, [text[0]], rest);
      HoldsChar(line, i, [text[0]], 0);
      forall k | 0 <= k < |rest|
        ensures rest[k] !in " \t;#" && !RemarkAt(rest, k) && !EscapeAt(rest, k)
      {
        assert rest[k] == text[k + 1] && !RemarkAt(text, k + 1) && !EscapeAt(text, k + 1);
      }
      WordReads(line, i + 1, rest, raw);
      WordChar(line, i, text);
      WordStep(line, i, raw);
    }
  }

  lemma WordOver(line: string, i: nat, raw: bool)
    requires i <= |line| && (i == |line| || line[i] in " \t;#" || RemarkAt(line, i))
    ensures TokenEnd(line, i, NO_QUOTE) == i && Content(line, i, NO_QUOTE, raw) == ""
  {
  }

  lemma WordStep(line: string, i: nat, raw: bool)
    requires i < |line| && !Tokenizer.Escape(line, i) && !Stops(line, i, NO_QUOTE)
    ensures TokenEnd(line, i, NO_QUOTE) == TokenEnd(line, i + 1, NO_QUOTE)
    ensures Content(line, i, NO_QUOTE, raw) == [line[i]] + Content(line, i + 1, NO_QUOTE, raw)
  {
  }

  lemma WordChar(line: string, i: nat, text: string)
    requires Holds(line, i, text) && text != ""
    requires text[0] !in " \t;#" && !RemarkAt(text, 0) && !EscapeAt(text, 0)
    requires var end := i + |text|;
             end == |line| || line[end] in " \t;#" || (RemarkAt(line, end) && end + 1 < |line|)
    ensures i < |line| && !Tokenizer.Escape(line, i) && !Stops(line, i, NO_QUOTE)
  {
    HoldsChar(line, i, text, 0);
    if |text| > 1 {
      HoldsChar(line, i, text, 1);
    }
    if |text| > 2 {
      HoldsChar(line, i, text, 2);
    }
  }

  /** The inside of a quoted token. */
  lemma {:induction false} QuoteReads(line: string, i: nat, mark: char, text: string, closed: bool, raw: bool)
    requires QuoteOk(mark, text) && Holds(line, i, Escaped(mark, text))
    requires var end := i + |Escaped(mark, text)|; if closed then end < |line| && line[end] == mark else end == |line|
    ensures TokenEnd(line, i, mark) == i + |Escaped(mark, text)|
    ensures Content(line, i, mark, raw) == if raw then Escaped(mark, text) else text
    decreases |text|
  {
    hide Holds, QuoteOk, TokenEnd, Content, Tokenizer.Escape, Mark;
    HoldsBound(line, i, Escaped(mark, text));
    MarkOk(mark, text);
    if text == "" {
      QuoteOver(line, i, mark, raw);
    } else {
      var first := if text[0] == mark then "$\\" + [mark] else [text[0]];
      var rest := text[1..];
      assert Escaped(mark, text) == first + Escaped(mark, rest);
      HoldsParts(line, i, first, Escaped(mark, rest));
      RestOk(mark, text);
      QuoteReads(line, i + |first|, mark, rest, closed, raw);
      if text[0] == mark {
        HoldsChar(line, i, first, 0);
        HoldsChar(line, i, first, 1);
        HoldsChar(line, i, first, 2);
        EscapedStep(line, i, mark, raw);
        assert text == [mark] + rest;
      } else {
        HoldsChar(line, i, first, 0);
        NoChanceEscape(line, i, mark, text, closed);
        QuoteStep(line, i, mark, raw);
        assert text == [text[0]] + rest;
      }
    }
  }

  lemma MarkOk(mark: char, text: string)
    requires QuoteOk(mark, text)
    ensures Mark(mark)
  {
  }

  lemma RestOk(mark: char, text: string)
    requires QuoteOk(mark, text) && text != ""
    ensures QuoteOk(mark, text[1..])
  {
    var rest := text[1..];
    forall i | 0 <= i < |rest| && EscapeAt(rest, i)
      ensures rest[i + 2] == mark
    {
      assert EscapeAt(text, i + 1);
    }
  }

  lemma QuoteOver(line: string, i: nat, mark: char, raw: bool)
    requires i <= |line| && (i == |line| || line[i] == mark) && (i < |line| ==> Mark(mark))
    ensures mark != NO_QUOTE ==> TokenEnd(line, i, mark) == i && Content(line, i, mark, raw) == ""
  {
  }

  lemma EscapedStep(line: string, i: nat, mark: char, raw: bool)
    requires i + 2 < |line| && line[i] == '$' && line[i + 1] == '\\' && line[i + 2] == mark && Mark(mark)
    ensures TokenEnd(line, i, mark) == TokenEnd(line, i + 3, mark)
    ensures Content(line, i, mark, raw) ==
              (if raw then "$\\" + [mark] else [mark]) + Content(line, i + 3, mark, raw)
  {
    assert Tokenizer.Escape(line, i);
    assert line[i..i + 3] == "$\\" + [mark];
  }

  lemma QuoteStep(line: string, i: nat, mark: char, raw: bool)
    requires i < |line| && Mark(mark) && line[i] != mark && !Tokenizer.Escape(line, i)
    ensures TokenEnd(line, i, mark) == TokenEnd(line, i + 1, mark)
    ensures Content(line, i, mark, raw) == [line[i]] + Content(line, i + 1, mark, raw)
  {
  }

  /** How a written text starts. */
  lemma EscapedStarts(mark: char, text: string)
    requires text != ""
    ensures var w := Escaped(mark, text);
            && w != "" && w[0] == (if text[0] == mark then '$' else text[0])
            && (text[0] != mark ==> w[1..] == Escaped(mark, text[1..]))
  {
  }

  /** A character that is no mark does not start an escape in the written text. */
  lemma NoChanceEscape(line: string, i: nat, mark: char, text: string, closed: bool)
    requires QuoteOk(mark, text) && text != "" && text[0] != mark && Holds(line, i, Escaped(mark, text))
    requires var end := i + |Escaped(mark, text)|; if closed then end < |line| && line[end] == mark else end == |line|
    ensures i < |line| && line[i] == text[0] && !Tokenizer.Escape(line, i) && Mark(mark)
  {
    hide Holds, Escaped, QuoteOk;
    var w, rest := Escaped(mark, text), text[1..];
    EscapedStarts(mark, text);
    MarkOk(mark, text);
    HoldsChar(line, i, w, 0);
    if rest == "" {
      NothingEscaped(mark);
      assert |w[1..]| == 0;
    } else {
      EscapedStarts(mark, rest);
      assert w[1] == w[1..][0];
      HoldsChar(line, i, w, 1);
      if rest[0] != mark {
        SecondChar(line, i, mark, text);
      }
    }
  }

  lemma NothingEscaped(mark: char)
    ensures Escaped(mark, "") == ""
  {
  }

  lemma SecondChar(line: string, i: nat, mark: char, text: string)
    requires QuoteOk(mark, text) && |text| >= 2 && text[0] != mark && text[1] != mark
    requires Holds(line, i, Escaped(mark, text))
    ensures !(text[0] == '$' && text[1] == '\\' && i + 2 < |line| && Mark(line[i + 2]))
  {
    hide Holds, Escaped;
    var w, rest := Escaped(mark, text), text[1..];
    var last := rest[1..];
    EscapedStarts(mark, text);
    EscapedStarts(mark, rest);
    if last != "" {
      EscapedStarts(mark, last);
      assert w[2] == w[1..][1] == w[1..][1..][0];
      HoldsChar(line, i, w, 2);
      assert last[0] == text[2];
      assert EscapeAt(text, 0) ==> text[2] == mark;
    }
  }

  lemma {:induction false} RemarkReads(line: string, i: nat, text: string)
    requires RemarkOk(text) && Holds(line, i, text + "*/")
    ensures BlockEnds(line, i) && BlockEnd(line, i) == i + |text| + 2
    decreases |text|
  {
    hide Holds;
    HoldsBound(line, i, text + "*/");
    HoldsChar(line, i, text + "*/", 0);
    HoldsChar(line, i, text + "*/", 1);
    if text != "" {
      var rest := text[1..];
      assert text + "*/" == [text[0]] + (rest + "*/");
      HoldsParts(line, i, [text[0]], rest + "*/");
      forall k | 0 <= k < |rest|
        ensures !RemarkEndAt(rest, k)
      {
        assert !RemarkEndAt(text, k + 1);
      }
      RemarkReads(line, i + 1, rest);
      assert !RemarkEndAt(text, 0);
    }
  }

  lemma {:induction false} RemarkOpen(line: string, i: nat, text: string)
    requires RemarkOk(text) && Holds(line, i, text) && i + |text| == |line|
    ensures !BlockEnds(line, i)
    decreases |text|
  {
    hide Holds;
    HoldsBound(line, i, text);
    if text != "" {
      var rest := text[1..];
      assert text == [text[0]] + rest;
      HoldsChar(line, i, text, 0);
      if |text| > 1 {
        HoldsChar(line, i, text, 1);
      }
      HoldsParts(line, i, [text[0]], rest);
      forall k | 0 <= k < |rest|
        ensures !RemarkEndAt(rest, k)
      {
        assert !RemarkEndAt(text, k + 1);
      }
      RemarkOpen(line, i + 1, rest);
      assert !RemarkEndAt(text, 0);
    }
  }

  /* ---------- reading a line ---------- */

  /** The characters behind an element: the gap, and what follows it. */
  lemma AfterElement(line: string, i: nat, e: string, gap: string, rest: string)
    requires Holds(line, i, e + (gap + rest)) && i + |e + (gap + rest)| == |line|
    ensures Holds(line, i, e) && Holds(line, i + |e|, gap) && Holds(line, i + |e| + |gap|, rest)
    ensures i + |e| + |gap| + |rest| == |line|
  {
    HoldsParts(line, i, e, gap + rest);
    HoldsParts(line, i + |e|, gap, rest);
  }

  lemma WordEnds(line: string, end: nat, gap: string, rest: string)
    requires Gap(gap) && (gap != "" || StopsWord(rest))
    requires Holds(line, end, gap) && Holds(line, end + |gap|, rest) && end + |gap| + |rest| == |line|
    ensures end == |line| || line[end] in " \t;#" || (RemarkAt(line, end) && end + 1 < |line|)
  {
    hide Holds;
    if gap != "" {
      HoldsChar(line, end, gap, 0);
      assert gap[0] in gap;
    } else if rest != "" {
      HoldsChar(line, end, rest, 0);
      if RemarkAt(rest, 0) {
        HoldsChar(line, end, rest, 1);
      }
    }
  }

  lemma ReadsWord(line: string, i: nat, text: string, next: nat, raw: bool)
    requires WordOk(text) && Holds(line, i, text)
    requires var end := i + |text|;
             && end <= next <= |line| && SkipBlanks(line, end) == next
             && (end == |line| || line[end] in " \t;#" || (RemarkAt(line, end) && end + 1 < |line|))
    ensures i < |line| && !Blank(line[i]) && (next < |line| ==> !Blank(line[next]))
    ensures Continues(Lex(line, i, false, raw), [text], Lex(line, next, false, raw))
  {
    hide Holds, Lex, Continues, SkipBlanks, TokenEnd, Content;
    WordReads(line, i, text, raw);
    HoldsBound(line, i, text);
    HoldsChar(line, i, text, 0);
    WordChar(line, i, text);
    NotBlankAfter(line, i + |text|);
    LexStep(line, i, false, raw);
  }

  lemma NotBlankAfter(line: string, i: nat)
    requires i <= |line|
    ensures var j := SkipBlanks(line, i); j < |line| ==> !Blank(line[j])
  {
  }

  lemma ReadsQuote(line: string, i: nat, mark: char, text: string, next: nat, raw: bool)
    requires QuoteOk(mark, text) && Holds(line, i, Spelled(Quote(mark, text)))
    requires var end := i + |Escaped(mark, text)| + 2; end <= next <= |line| && SkipBlanks(line, end) == next
    ensures i < |line| && !Blank(line[i]) && (next < |line| ==> !Blank(line[next]))
    ensures Continues(Lex(line, i, false, raw), [if raw then Escaped(mark, text) else text],
                      Lex(line, next, false, raw))
  {
    hide Holds, Lex, Continues, SkipBlanks, TokenEnd, Content, QuoteOk, Escaped, Tokenizer.Escape;
    var w := Escaped(mark, text);
    MarkOk(mark, text);
    HoldsParts(line, i, [mark], w + [mark]);
    HoldsChar(line, i, [mark], 0);
    HoldsParts(line, i + 1, w, [mark]);
    HoldsChar(line, i + 1 + |w|, [mark], 0);
    QuoteReads(line, i + 1, mark, text, true, raw);
    NotBlankAfter(line, i + |w| + 2);
    LexStep(line, i, false, raw);
  }

  lemma ReadsRemark(line: string, i: nat, text: string, next: nat, raw: bool)
    requires RemarkOk(text) && Holds(line, i, Spelled(Remark(text)))
    requires var end := i + |text| + 4; end <= next <= |line| && SkipBlanks(line, end) == next
    ensures i < |line| && !Blank(line[i]) && (next < |line| ==> !Blank(line[next]))
    ensures Lex(line, i, false, raw) == Lex(line, next, false, raw)
  {
    hide Holds, Lex, SkipBlanks, BlockEnd, BlockEnds, RemarkOk;
    HoldsParts(line, i, "/*", text + "*/");
    HoldsChar(line, i, "/*", 0);
    HoldsChar(line, i, "/*", 1);
    HoldsBound(line, i + 2, text + "*/");
    RemarkReads(line, i + 2, text);
    NotBlankAfter(line, i + |text| + 4);
    LexStep(line, i, false, raw);
    LexStep(line, i + 2, true, raw);
  }

  lemma ReadsEnding(line: string, i: nat, ending: Ending, raw: bool)
    requires EndingOk(ending) && Holds(line, i, SpelledEnding(ending)) && i + |SpelledEnding(ending)| == |line|
    ensures (i < |line| ==> !Blank(line[i])) && Lex(line, i, false, raw) == Meant([], ending, raw)
  {
    hide Holds, Lex, TokenEnd, Content, BlockEnd, BlockEnds, QuoteOk, RemarkOk;
    match ending {
      case Over =>
        LexEnd(line, false, raw);
      case Comment(mark, text) =>
        HoldsChar(line, i, [mark] + text, 0);
        LexStep(line, i, false, raw);
      case OpenRemark(text) =>
        HoldsParts(line, i, "/*", text);
        HoldsChar(line, i, "/*", 0);
        HoldsChar(line, i, "/*", 1);
        RemarkOpen(line, i + 2, text);
        LexStep(line, i, false, raw);
        if text == "" {
          LexEnd(line, true, raw);
        } else {
          LexStep(line, i + 2, true, raw);
        }
      case OpenQuote(mark, text) =>
        MarkOk(mark, text);
        HoldsParts(line, i, [mark], Escaped(mark, text));
        HoldsChar(line, i, [mark], 0);
        QuoteReads(line, i + 1, mark, text, false, raw);
        LexStep(line, i, false, raw);
    }
  }

  lemma SpelledSize(e: Element)
    ensures match e
            case Word(text) => Spelled(e) == text
            case Quote(mark, text) => |Spelled(e)| == |Escaped(mark, text)| + 2
            case Remark(text) => |Spelled(e)| == |text| + 4
  {
  }

  lemma BlankIs(line: string, i: nat)
    requires i < |line| ==> !Blank(line[i])
    ensures i < |line| ==> line[i] !in " \t"
  {
  }

  /** What the first element adds to what the rest means. */
  lemma MeantFirst(parts: seq<Part>, ending: Ending, raw: bool)
    requires parts != []
    ensures var whole, rest := Meant(parts, ending, raw), Meant(parts[1..], ending, raw);
            match parts[0].element
            case Word(text) => Continues(whole, [text], rest)
            case Quote(mark, text) => Continues(whole, [if raw then Escaped(mark, text) else text], rest)
            case Remark(_) => whole == rest
  {
    hide Escaped;
    var token := match parts[0].element
                 case Word(text) => [text]
                 case Quote(mark, text) => [if raw then Escaped(mark, text) else text]
                 case Remark(_) => [];
    assert TokensOf(parts, raw) == token + TokensOf(parts[1..], raw);
    if ending.OpenQuote? {
      var last := [if raw then Escaped(ending.mark, ending.text) else ending.text];
      assert token + TokensOf(parts[1..], raw) + last == token + (TokensOf(parts[1..], raw) + last);
    }
  }

  lemma ContinuesOnce(a: Parsed, b: Parsed, done: seq<string>, rest: Parsed)
    requires Continues(a, done, rest) && Continues(b, done, rest)
    ensures a == b
  {
  }

  /** A spelled line, from position `i` on, is read as it was meant. */
  lemma {:induction false} SpellReads(line: string, i: nat, parts: seq<Part>, ending: Ending, raw: bool)
    requires PartsOk(parts, ending) && EndingOk(ending)
    requires Holds(line, i, Spell(parts, ending)) && i + |Spell(parts, ending)| == |line|
    ensures (i < |line| ==> !Blank(line[i])) && Lex(line, i, false, raw) == Meant(parts, ending, raw)
    decreases |parts|
  {
    hide Holds, Lex, Gap, WordOk, QuoteOk, RemarkOk, EndingOk, StopsWord, SkipBlanks, Spelled, Escaped, Meant,
        Continues, Blank, SpelledEnding;
    if parts == [] {
      ReadsEnding(line, i, ending, raw);
    } else {
      var e, gap, rest := parts[0].element, parts[0].gap, Spell(parts[1..], ending);
      AfterElement(line, i, Spelled(e), gap, rest);
      var end := i + |Spelled(e)|;
      var next := end + |gap|;
      SpellReads(line, next, parts[1..], ending, raw);
      BlankIs(line, next);
      GapSkipped(line, end, gap);
      SpelledSize(e);
      MeantFirst(parts, ending, raw);
      match e {
        case Word(text) =>
          WordEnds(line, end, gap, rest);
          ReadsWord(line, i, text, next, raw);
          ContinuesOnce(Lex(line, i, false, raw), Meant(parts, ending, raw), [text], Lex(line, next, false, raw));
        case Quote(mark, text) =>
          ReadsQuote(line, i, mark, text, next, raw);
          ContinuesOnce(Lex(line, i, false, raw), Meant(parts, ending, raw),
                        [if raw then Escaped(mark, text) else text], Lex(line, next, false, raw));
        case Remark(text) =>
          ReadsRemark(line, i, text, next, raw);
      }
    }
  }

  /** A line spelled out, after blanks, from a state outside of comment blocks. */
  lemma LineReads(blanks: string, parts: seq<Part>, ending: Ending, raw: bool)
    requires Gap(blanks) && PartsOk(parts, ending) && EndingOk(ending)
    ensures Whole(blanks + Spell(parts, ending), false, raw) == Meant(parts, ending, raw)
  {
    hide Holds, Lex, Gap, PartsOk, EndingOk, SkipBlanks, Spell;
    var line := blanks + Spell(parts, ending);
    AllHeld(line, blanks, Spell(parts, ending));
    SpellReads(line, |blanks|, parts, ending, raw);
    GapSkipped(line, 0, blanks);
  }

  lemma AllHeld(line: string, a: string, b: string)
    requires line == a + b
    ensures Holds(line, 0, a) && Holds(line, |a|, b)
  {
    assert line[0..|line|] == line;
    HoldsParts(line, 0, a, b);
  }

  /** A line that starts inside of a comment block: what is behind the end of the block counts. */
  lemma BlockLineReads(text: string, gap: string, parts: seq<Part>, ending: Ending, raw: bool)
    requires RemarkOk(text) && (text != "" ==> text[0] !in " \t") && Gap(gap)
    requires PartsOk(parts, ending) && EndingOk(ending)
    ensures Whole(text + "*/" + (gap + Spell(parts, ending)), true, raw) == Meant(parts, ending, raw)
  {
    hide Holds, Lex, Gap, PartsOk, EndingOk, Spell, SkipBlanks, BlockEnd, BlockEnds, RemarkOk;
    var start, rest := text + "*/", Spell(parts, ending);
    var line := start + (gap + rest);
    AllHeld(line, start, gap + rest);
    AfterElement(line, 0, start, gap, rest);
    SpellReads(line, |start| + |gap|, parts, ending, raw);
    GapSkipped(line, |start|, gap);
    RemarkReads(line, 0, text);
    HoldsChar(line, 0, start, 0);
    NoBlanks(line);
    LexStep(line, 0, true, raw);
  }

  lemma NoBlanks(line: string)
    requires line != "" && !Blank(line[0])
    ensures SkipBlanks(line, 0) == 0
  {
  }
}
