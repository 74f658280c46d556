/**
 The line parser: one routine run twice over a line, first to count the tokens and
 then to fill them in.
 */
module Tokenizer {

  predicate Blank(c: char) {
    c == ' ' || c == '\t'
  }

  predicate QuoteMark(c: char) {
    c == '"' || c == '\'' || c == '`'
  }

  /** An escaped quotation mark. */
  predicate Escape(line: string, i: nat) {
    i + 2 < |line| && line[i] == '$' && line[i + 1] == '\\' && QuoteMark(line[i + 2])
  }

  predicate BlockStart(line: string, i: nat) {
    i + 1 < |line| && line[i] == '/' && line[i + 1] == '*'
  }

  predicate LineComment(line: string, i: nat) {
    i < |line| && (line[i] == ';' || line[i] == '#')
  }

  const NO_QUOTE := '\0'

  /** Where a token ends that was opened by `quote`, or by nothing. */
  predicate Stops(line: string, i: nat, quote: char) {
    i < |line| &&
    if quote == NO_QUOTE then Blank(line[i]) || LineComment(line, i) || BlockStart(line, i) else line[i] == quote
  }

  function SkipBlanks(line: string, i: nat): (j: nat)
    requires i <= |line|
    ensures i <= j <= |line| && (j < |line| ==> !Blank(line[j]))
    decreases |line| - i
  {
    if i < |line| && Blank(line[i]) then SkipBlanks(line, i + 1) else i
  }

  /** Behind the end of a comment block, or the end of the line when it goes on. */
  function BlockEnd(line: string, i: nat): (j: nat)
    requires i <= |line|
    ensures i <= j <= |line|
    decreases |line| - i
  {
    if i == |line| then i
    else if i + 1 < |line| && line[i] == '*' && line[i + 1] == '/' then i + 2
    else BlockEnd(line, i + 1)
  }

  predicate BlockEnds(line: string, i: nat)
    requires i <= |line|
    decreases |line| - i
  {
    i < |line| && ((i + 1 < |line| && line[i] == '*' && line[i + 1] == '/') || BlockEnds(line, i + 1))
  }

  function TokenEnd(line: string, i: nat, quote: char): (end: nat)
    requires i <= |line|
    ensures i <= end <= |line| && (end < |line| ==> Stops(line, end, quote))
    ensures i < |line| && !Stops(line, i, quote) ==> i < end
    decreases |line| - i
  {
    if Escape(line, i) then TokenEnd(line, i + 3, quote)
    else if i == |line| || Stops(line, i, quote) then i
    else TokenEnd(line, i + 1, quote)
  }

  /** The characters of a token; `raw` keeps the escapes as they are written. */
  function Content(line: string, i: nat, quote: char, raw: bool): string
    requires i <= |line|
    decreases |line| - i
  {
    if Escape(line, i) then
      (if raw then line[i..i + 3] else [line[i + 2]]) + Content(line, i + 3, quote, raw)
    else if i == |line| || Stops(line, i, quote) then ""
    else [line[i]] + Content(line, i + 1, quote, raw)
  }

  /** What a line holds, and the state after it; an unterminated quotation is an error. */
  datatype Parsed = Parsed(tokens: seq<string>, inComment: bool, inBlock: bool, error: bool)

  function QuoteAt(line: string, i: nat): (q: char)
    requires i < |line|
  {
    if QuoteMark(line[i]) then line[i] else NO_QUOTE
  }

  function TokenStart(line: string, i: nat): (start: nat)
    requires i < |line|
    ensures start <= |line|
  {
    if QuoteAt(line, i) == NO_QUOTE then i else i + 1
  }

  function Token(line: string, i: nat, raw: bool): string
    requires i < |line|
  {
    Content(line, TokenStart(line, i), QuoteAt(line, i), raw)
  }

  /** A quotation that the line does not close. */
  predicate Unterminated(line: string, i: nat)
    requires i < |line|
  {
    QuoteAt(line, i) != NO_QUOTE && TokenEnd(line, TokenStart(line, i), QuoteAt(line, i)) == |line|
  }

  /** Where the next token starts. */
  function AfterToken(line: string, i: nat): (next: nat)
    requires i < |line| && !Unterminated(line, i)
    ensures next <= |line| && (next < |line| ==> !Blank(line[next]))
    ensures !Blank(line[i]) && !LineComment(line, i) && !BlockStart(line, i) ==> i < next
  {
    var quote := QuoteAt(line, i);
    var end := TokenEnd(line, TokenStart(line, i), quote);
    SkipBlanks(line, if quote == NO_QUOTE then end else end + 1)
  }

  function Lex(line: string, i: nat, inBlock: bool, raw: bool): Parsed
    requires i <= |line| && (i < |line| && !inBlock ==> !Blank(line[i]))
    decreases |line| - i
  {
    if i == |line| then Parsed([], false, inBlock, false)
    else if inBlock then
      if BlockEnds(line, i) then
        BlockEndsLater(line, i);
        Lex(line, SkipBlanks(line, BlockEnd(line, i)), false, raw)
      else Parsed([], false, true, false)
    else if LineComment(line, i) then Parsed([], true, false, false)
    else if BlockStart(line, i) then Lex(line, i + 2, true, raw)
    else
      var token := Token(line, i, raw);
      if Unterminated(line, i) then Parsed([token], false, false, true)
      else
        var rest := Lex(line, AfterToken(line, i), false, raw);
        rest.(tokens := [token] + rest.tokens)
  }

  lemma {:induction false} BlockEndsLater(line: string, i: nat)
    requires i <= |line| && BlockEnds(line, i)
    ensures i < BlockEnd(line, i)
    decreases |line| - i
  {
    if !(i + 1 < |line| && line[i] == '*' && line[i + 1] == '/') {
      BlockEndsLater(line, i + 1);
    }
  }

  lemma {:induction false} RawContent(line: string, i: nat, quote: char)
    requires i <= |line|
    ensures Content(line, i, quote, true) == line[i..TokenEnd(line, i, quote)]
    decreases |line| - i
  {
    if Escape(line, i) {
      RawContent(line, i + 3, quote);
    } else if i < |line| && !Stops(line, i, quote) {
      RawContent(line, i + 1, quote);
    }
  }

  /** What is left of a token after one of its characters is copied. */
  lemma ContentStep(line: string, p: nat, quote: char)
    requires p <= |line| && p < TokenEnd(line, p, quote)
    ensures var last := if Escape(line, p) then p + 2 else p;
            && last < TokenEnd(line, p, quote) && TokenEnd(line, last + 1, quote) == TokenEnd(line, p, quote)
            && Content(line, p, quote, false) == [line[last]] + Content(line, last + 1, quote, false)
  {
  }

  lemma ContentDone(line: string, p: nat, quote: char)
    requires p <= |line| && p == TokenEnd(line, p, quote)
    ensures Content(line, p, quote, false) == ""
  {
  }

  class LineParser {
    var nt: nat
    var inCommentBlock: bool
    var inComment: bool
    var tokens: array?<string>

    constructor (commentBlock: bool)
      ensures inCommentBlock == commentBlock && tokens == null
    {
      inCommentBlock, inComment, nt, tokens := commentBlock, false, 0, null;
    }

    static method SkipSpace(line: string, i: nat) returns (j: nat)
      requires i <= |line|
      ensures j == SkipBlanks(line, i)
    {
      j := i;
      while j < |line| && Blank(line[j])
        invariant i <= j <= |line| && SkipBlanks(line, i) == SkipBlanks(line, j)
      {
        j := j + 1;
      }
    }

    /** Counts the characters of a token. */
    static method CountToken(line: string, p: nat, quote: char, raw: bool) returns (i: nat, nc: nat)
      requires p <= |line|
      ensures i == TokenEnd(line, p, quote) && nc == |Content(line, p, quote, raw)|
    {
      i, nc := p, 0;
      while i < |line|
        invariant p <= i <= |line| && TokenEnd(line, p, quote) == TokenEnd(line, i, quote)
        invariant |Content(line, p, quote, raw)| == nc + |Content(line, i, quote, raw)|
      {
        if Escape(line, i) {
          nc := nc + if raw then 3 else 1;
          i := i + 3;
        } else if Stops(line, i, quote) {
          return;
        } else {
          i := i + 1;
          nc := nc + 1;
        }
      }
    }

    /** Fills a buffer that has room for exactly the counted characters and the terminator. */
    static method FillToken(line: string, start: nat, end: nat, nc: nat, quote: char, raw: bool) returns (token: string)
      requires start <= |line| && end == TokenEnd(line, start, quote) && nc == |Content(line, start, quote, raw)|
      ensures token == Content(line, start, quote, raw)
    {
      hide TokenEnd, Content;
      var buf := new char[nc + 1];
      var i, p := 0, start;
      if raw {
        RawContent(line, start, quote);
      }
      while p < end
        invariant start <= p <= end <= |line| && i <= nc
        invariant raw ==> buf[..i] == line[start..p]
        invariant !raw ==> TokenEnd(line, p, quote) == end
                           && Content(line, start, quote, false) == buf[..i] + Content(line, p, quote, false)
      {
        ghost var before := buf[..i];
        if !raw {
          ContentStep(line, p, quote);
          if p + 1 < |line| && line[p] == '$' && line[p + 1] == '\\' {
            if p + 2 < |line| && QuoteMark(line[p + 2]) {
              p := p + 2;
            }
          }
        }
        buf[i] := line[p];
        i := i + 1;
        p := p + 1;
        assert buf[..i] == before + [line[p - 1]];
      }
      if !raw {
        ContentDone(line, p, quote);
      }
      buf[nc] := '\0';
      token := buf[..nc];
    }

    /** Goes on behind the end of a comment block. */
    method SkipBlock(line: string, i: nat) returns (j: nat)
      requires i < |line| && inCommentBlock
      modifies this`inCommentBlock
      ensures i < j <= |line| && (j < |line| ==> !inCommentBlock && !Blank(line[j]))
      ensures inCommentBlock == !BlockEnds(line, i)
      ensures j == if BlockEnds(line, i) then SkipBlanks(line, BlockEnd(line, i)) else |line|
    {
      j := i;
      if BlockEnds(line, i) {
        BlockEndsLater(line, i);
      }
      while j < |line|
        invariant i <= j <= |line| && inCommentBlock
        invariant BlockEnds(line, i) == BlockEnds(line, j) && BlockEnd(line, i) == BlockEnd(line, j)
      {
        if line[j] == '*' && j + 1 < |line| && line[j + 1] == '/' {
          inCommentBlock := false;
          j := SkipSpace(line, j + 2);
          return;
        }
        j := j + 1;
      }
    }

    /** Reads a token and the blanks after it. */
    method DoToken(line: string, raw: bool, i: nat) returns (error: bool, next: nat)
      requires i < |line| && !Blank(line[i]) && !LineComment(line, i) && !BlockStart(line, i)
      requires tokens != null ==> nt < tokens.Length
      modifies this`nt, tokens
      ensures nt == old(nt) + 1 && (tokens != null ==> tokens[..nt] == old(tokens[..nt]) + [Token(line, i, raw)])
      ensures error == Unterminated(line, i) && i < next <= |line|
      ensures !error ==> next == AfterToken(line, i)
    {
      hide TokenEnd, Content;
      var quote := QuoteAt(line, i);
      next := i;
      if quote != NO_QUOTE {
        next := next + 1;
      }
      var end, nc := CountToken(line, next, quote, raw);
      if tokens != null {
        tokens[nt] := FillToken(line, next, end, nc, quote, raw);
      }
      nt := nt + 1;
      next := end;
      error := false;
      if quote != NO_QUOTE {
        if next == |line| {
          return true, next;
        }
        next := next + 1;
      }
      next := SkipSpace(line, next);
    }

    /** With `done` in the token array, what is left at `i` completes the line. */
    ghost predicate Doing(line: string, raw: bool, i: nat, whole: Parsed, done: seq<string>)
      reads this, tokens
    {
      && i <= |line| && (i < |line| && !inCommentBlock ==> !Blank(line[i])) && !inComment && nt == |done|
      && Continues(whole, done, Lex(line, i, inCommentBlock, raw))
      && (tokens != null ==> nt <= tokens.Length == |whole.tokens| && tokens[..nt] == done)
    }

    /** The line is done. */
    ghost predicate Done(whole: Parsed)
      reads this, tokens
    {
      && nt == |whole.tokens| && inComment == whole.inComment && inCommentBlock == whole.inBlock
      && (tokens != null ==> tokens.Length == nt && tokens[..] == whole.tokens)
    }

    /** One round of the loop: a comment or a token. */
    method DoItem(line: string, raw: bool, i: nat, ghost whole: Parsed, ghost done: seq<string>)
      returns (n: int, stop: bool, next: nat, ghost more: seq<string>)
      requires i < |line| && Doing(line, raw, i, whole, done)
      modifies this`nt, this`inComment, this`inCommentBlock, tokens
      ensures stop ==> Done(whole) && n == if whole.error then -2 else 0
      ensures !stop ==> Doing(line, raw, next, whole, more) && i < next
    {
      hide Lex, Continues, Token, Unterminated, AfterToken, BlockEnds, BlockEnd;
      n, stop, next, more := 0, false, i, done;
      ghost var here := Lex(line, i, inCommentBlock, raw);
      LexStep(line, i, inCommentBlock, raw);
      ContinuesLast(whole, done, here);
      if inCommentBlock {
        next := SkipBlock(line, i);
        LexEnd(line, inCommentBlock, raw);
        return;
      }
      if LineComment(line, i) {
        inComment := true;
        stop := true;
        return;
      }
      if BlockStart(line, i) {
        inCommentBlock := true;
        next := i + 2;
        return;
      }
      ghost var token := Token(line, i, raw);
      stop, next := DoToken(line, raw, i);
      if stop {
        n := -2;
        return;
      }
      ContinuesNext(whole, done, here, token, Lex(line, next, false, raw));
      more := done + [token];
    }

    /** One pass over the line: counting without a token array, filling with one. */
    method DoLine(line: string, raw: bool) returns (n: int)
      requires tokens != null ==> tokens.Length == |Whole(line, inCommentBlock, raw).tokens|
      modifies this`nt, this`inComment, this`inCommentBlock, tokens
      ensures var r := Whole(line, old(inCommentBlock), raw); Done(r) && n == if r.error then -2 else 0
    {
      hide Lex, Continues, SkipBlanks;
      ghost var whole := Whole(line, inCommentBlock, raw);
      ghost var done: seq<string> := [];
      nt := 0;
      inComment := false;
      var i := SkipSpace(line, 0);
      ContinuesFirst(whole);
      var stop := false;
      n := 0;
      while i < |line|
        invariant Doing(line, raw, i, whole, done) && n == 0
        decreases |line| - i
      {
        n, stop, i, done := DoItem(line, raw, i, whole, done);
        if stop {
          return;
        }
        n := 0;
      }
      LexEnd(line, inCommentBlock, raw);
      ContinuesLast(whole, done, Lex(line, i, inCommentBlock, raw));
    }

    /** Both passes; they agree, so that the second one fills exactly what the first one counted. */
    method Parse(line: string, raw: bool) returns (n: int)
      modifies this
      ensures var r := Whole(line, old(inCommentBlock), raw);
              && n == (if r.error then -2 else 0) && nt == |r.tokens|
              && inComment == r.inComment && inCommentBlock == r.inBlock
              && (tokens != null <==> !r.error && r.tokens != [])
              && (tokens != null ==> fresh(tokens) && tokens[..] == r.tokens)
    {
      tokens := null;
      nt := 0;
      var before := inCommentBlock;
      n := DoLine(line, raw);
      if n != 0 || nt == 0 {
        return;
      }
      inCommentBlock := before;
      tokens := new string[nt];
      n := DoLine(line, raw);
      if n != 0 {
        assert false;
      }
    }
  }

  function Whole(line: string, inBlock: bool, raw: bool): Parsed {
    Lex(line, SkipBlanks(line, 0), inBlock, raw)
  }

  /** With `done` found already, `rest` completes `whole`. */
  ghost predicate Continues(whole: Parsed, done: seq<string>, rest: Parsed) {
    whole == rest.(tokens := done + rest.tokens)
  }

  lemma ContinuesFirst(whole: Parsed)
    ensures Continues(whole, [], whole)
  {
  }

  lemma ContinuesNext(whole: Parsed, done: seq<string>, here: Parsed, token: string, rest: Parsed)
    requires Continues(whole, done, here) && Continues(here, [token], rest)
    ensures Continues(whole, done + [token], rest)
  {
    assert done + ([token] + rest.tokens) == done + [token] + rest.tokens;
  }

  lemma ContinuesLast(whole: Parsed, done: seq<string>, last: Parsed)
    requires Continues(whole, done, last)
    ensures last.tokens == [] ==> whole == last.(tokens := done)
    ensures |last.tokens| == 1 ==> whole == last.(tokens := done + last.tokens)
    ensures |whole.tokens| == |done| + |last.tokens|
  {
  }

  lemma LexEnd(line: string, inBlock: bool, raw: bool)
    ensures Lex(line, |line|, inBlock, raw) == Parsed([], false, inBlock, false)
  {
  }

  lemma LexStep(line: string, i: nat, inBlock: bool, raw: bool)
    requires i < |line| && (!inBlock ==> !Blank(line[i]))
    ensures var here := Lex(line, i, inBlock, raw);
            if inBlock then
              if BlockEnds(line, i) then here == Lex(line, SkipBlanks(line, BlockEnd(line, i)), false, raw)
              else here == Parsed([], false, true, false)
            else if LineComment(line, i) then here == Parsed([], true, false, false)
            else if BlockStart(line, i) then here == Lex(line, i + 2, true, raw)
            else
              if Unterminated(line, i) then here == Parsed([Token(line, i, raw)], false, false, true)
              else Continues(here, [Token(line, i, raw)], Lex(line, AfterToken(line, i), false, raw))
  {
  }

  /* ---------- writing tokens down ---------- */

  function Quoted(token: string): string {
    "\"" + token + "\""
  }

  /** Tokens written in double quotes, a blank between them. */
  function Line(tokens: seq<string>): string {
    if tokens == [] then "" else Quoted(tokens[0]) + if |tokens| == 1 then "" else " " + Line(tokens[1..])
  }

  predicate WithoutQuotes(token: string) {
    forall c :: c in token ==> !QuoteMark(c)
  }

  /** The end of the token makes an escape out of the quotation mark that follows it. */
  predicate EndsInEscape(token: string) {
    |token| >= 2 && token[|token| - 2..] == "$\\"
  }

  predicate Holds(line: string, i: nat, text: string) {
    i + |text| <= |line| && line[i..i + |text|] == text
  }

  lemma HoldsChar(line: string, i: nat, text: string, k: nat)
    requires Holds(line, i, text) && k < |text|
    ensures i + k < |line| && line[i + k] == text[k]
  {
    assert line[i..i + |text|][k] == line[i + k];
  }

  lemma HoldsParts(line: string, i: nat, a: string, b: string)
    requires Holds(line, i, a + b)
    ensures Holds(line, i, a) && Holds(line, i + |a|, b)
  {
    var all := line[i..i + |a + b|];
    assert line[i..i + |a|] == all[..|a|] == a;
    assert line[i + |a|..i + |a| + |b|] == all[|a|..] == b;
  }

  lemma EscapeToken(line: string, i: nat, raw: bool)
    requires Holds(line, i, "$\\\"")
    ensures '"' in Content(line, i, '"', raw)
  {
    HoldsChar(line, i, "$\\\"", 0);
    HoldsChar(line, i, "$\\\"", 1);
    HoldsChar(line, i, "$\\\"", 2);
    assert Escape(line, i);
    assert line[i..i + 3][2] == '"';
    var first := if raw then line[i..i + 3] else [line[i + 2]];
    assert '"' in first;
    assert Content(line, i, '"', raw) == first + Content(line, i + 3, '"', raw);
  }

  /** A character of a token that is neither a quotation mark nor the start of an escape. */
  lemma OrdinaryChar(line: string, i: nat, token: string)
    requires Holds(line, i, token + "\"") && WithoutQuotes(token) && token != "" && token != "$\\"
    ensures line[i] == token[0] && !Escape(line, i) && !Stops(line, i, '"')
  {
    HoldsChar(line, i, token + "\"", 0);
    HoldsChar(line, i, token + "\"", 1);
    if |token| > 1 {
      HoldsChar(line, i, token + "\"", 2);
      if |token| > 2 {
        assert !QuoteMark(token[2]);
      }
    }
    assert !QuoteMark(token[0]);
  }

  lemma {:induction false} QuotedToken(line: string, i: nat, token: string, raw: bool)
    requires Holds(line, i, token + "\"") && WithoutQuotes(token)
    ensures !EndsInEscape(token) ==>
              TokenEnd(line, i, '"') == i + |token| && Content(line, i, '"', raw) == token
    ensures EndsInEscape(token) ==> '"' in Content(line, i, '"', raw)
    decreases |token|
  {
    hide Holds, Escape, TokenEnd, Content, WithoutQuotes, EndsInEscape, Stops;
    if token == "" {
      HoldsChar(line, i, token + "\"", 0);
      AtMark(line, i, raw);
      NoEnding(token);
    } else if token == "$\\" {
      assert token + "\"" == "$\\\"";
      EscapeToken(line, i, raw);
      EscapeEnds();
    } else {
      var rest := token[1..];
      OrdinaryChar(line, i, token);
      assert token + "\"" == [token[0]] + (rest + "\"");
      HoldsParts(line, i, [token[0]], rest + "\"");
      RestWithoutQuotes(token);
      HoldsChar(line, i, [token[0]], 0);
      QuotedToken(line, i + 1, rest, raw);
      OneChar(line, i, raw);
      assert token == [token[0]] + rest;
    }
  }

  lemma AtMark(line: string, i: nat, raw: bool)
    requires i < |line| && line[i] == '"'
    ensures TokenEnd(line, i, '"') == i && Content(line, i, '"', raw) == ""
  {
  }

  lemma OneChar(line: string, i: nat, raw: bool)
    requires i < |line| && !Escape(line, i) && !Stops(line, i, '"')
    ensures TokenEnd(line, i, '"') == TokenEnd(line, i + 1, '"')
    ensures Content(line, i, '"', raw) == [line[i]] + Content(line, i + 1, '"', raw)
  {
  }

  lemma NoEnding(token: string)
    requires |token| < 2
    ensures !EndsInEscape(token)
  {
  }

  lemma EscapeEnds()
    ensures EndsInEscape("$\\")
  {
    assert "$\\"[0..] == "$\\";
  }

  lemma RestWithoutQuotes(token: string)
    requires token != "" && token != "$\\" && WithoutQuotes(token)
    ensures WithoutQuotes(token[1..]) && (EndsInEscape(token[1..]) <==> EndsInEscape(token))
  {
    if |token| > 2 {
      assert token[1..][|token| - 3..] == token[|token| - 2..];
    } else if |token| == 2 {
      assert token[0..] == token;
    }
  }

  lemma LineParts(line: string, i: nat, tokens: seq<string>)
    requires tokens != [] && Holds(line, i, Line(tokens)) && i + |Line(tokens)| == |line|
    ensures i < |line| && line[i] == '"' && Holds(line, i + 1, tokens[0] + "\"")
    ensures var next := i + |tokens[0]| + 2;
            if |tokens| == 1 then next == |line|
            else
              && next + 1 < |line| && line[next] == ' ' && line[next + 1] == '"'
              && Holds(line, next + 1, Line(tokens[1..])) && next + 1 + |Line(tokens[1..])| == |line|
  {
    hide Holds;
    var first, rest := tokens[0], if |tokens| == 1 then "" else " " + Line(tokens[1..]);
    assert Line(tokens) == "\"" + (first + "\"" + rest);
    HoldsParts(line, i, "\"", first + "\"" + rest);
    HoldsChar(line, i, "\"", 0);
    HoldsParts(line, i + 1, first + "\"", rest);
    if |tokens| > 1 {
      var next := i + |first| + 2;
      HoldsParts(line, next, " ", Line(tokens[1..]));
      HoldsChar(line, next, " ", 0);
      HoldsChar(line, next + 1, Line(tokens[1..]), 0);
    }
  }

  lemma EmptyLine(line: string)
    ensures Line([]) == "" && Holds(line, |line|, "")
  {
  }

  lemma NoMarkIn(token: string)
    requires WithoutQuotes(token)
    ensures '"' !in token
  {
    assert QuoteMark('"');
  }

  lemma {:induction false} LexLine(line: string, i: nat, tokens: seq<string>, raw: bool)
    requires forall t :: t in tokens ==> WithoutQuotes(t)
    requires Holds(line, i, Line(tokens)) && i + |Line(tokens)| == |line| && (i < |line| ==> line[i] == '"')
    ensures Lex(line, i, false, raw) == Parsed(tokens, false, false, false) <==>
            forall t :: t in tokens ==> !EndsInEscape(t)
    decreases |tokens|
  {
    hide WithoutQuotes, EndsInEscape, Holds, Line, Content, TokenEnd;
    if tokens == [] {
      EmptyLine(line);
    } else {
      var first := tokens[0];
      LineParts(line, i, tokens);
      QuotedToken(line, i + 1, first, raw);
      if EndsInEscape(first) {
        NoMarkIn(first);
      } else {
        var next := i + |first| + 2;
        assert SkipBlanks(line, next) == if |tokens| == 1 then next else next + 1;
        if |tokens| == 1 {
          EmptyLine(line);
          assert tokens[1..] == [];
        }
        LexLine(line, SkipBlanks(line, next), tokens[1..], raw);
        assert tokens == [first] + tokens[1..];
      }
    }
  }

  /** Tokens without quotation marks, written in double quotes, are read back exactly if none ends in `$\`. */
  lemma RoundTrip(tokens: seq<string>, raw: bool)
    requires forall t :: t in tokens ==> WithoutQuotes(t)
    ensures Whole(Line(tokens), false, raw) == Parsed(tokens, false, false, false) <==>
            forall t :: t in tokens ==> !EndsInEscape(t)
  {
    var line := Line(tokens);
    assert line[0..|line|] == line;
    LexLine(line, 0, tokens, raw);
  }
}
