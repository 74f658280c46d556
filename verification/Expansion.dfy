/**
 Expansion of `${NAME}` and `$%NAME%` in a script line, guarded by the list of the
 names being expanded.

 Characters are the 32-bit wide characters of a POSIX build, and case is folded as in
 the C locale.
 */
module Expansion {
  import opened Numbers
  import opened Wrappers
  import opened StringLists

  /** The defines, by folded name, and the process environment. */
  datatype Env = Env(defs: map<string, string>, vars: map<string, string>)

  ghost predicate WellFormed(env: Env) {
    && (forall k :: k in env.defs ==> Fold(k) == k && Clean(env.defs[k]))
    && (forall k :: k in env.vars ==> Clean(env.vars[k]))
  }

  datatype Kind = Brace | Percent

  /** What stands at the start of a line. `raw` is the text between the delimiters, `after` what follows
      the reference and `kept` what follows the dollar sign. */
  datatype Piece =
    | Nothing
    | Literal(c: char, rest: string)
    | Reference(kind: Kind, raw: string, after: string, kept: string)

  /** The index of the brace that closes a name, or the length when there is none. */
  function CloseBrace(s: string, i: nat, depth: nat): (end: nat)
    requires i <= |s|
    ensures i <= end <= |s| && (end < |s| ==> s[end] == '}')
    decreases |s| - i
  {
    if i == |s| then i
    else if s[i] == '{' then CloseBrace(s, i + 1, depth + 1)
    else if s[i] == '}' then (if depth == 0 then i else CloseBrace(s, i + 1, depth - 1))
    else CloseBrace(s, i + 1, depth)
  }

  function ClosePercent(s: string, i: nat): (end: nat)
    requires i <= |s|
    ensures i <= end <= |s| && (end < |s| ==> s[end] == '%')
    decreases |s| - i
  {
    if i == |s| || s[i] == '%' then i else ClosePercent(s, i + 1)
  }

  function Escaped(c: char): char {
    match c
    case 'r' => '\r'
    case 'n' => '\n'
    case 't' => '\t'
    case _ => c
  }

  function Scan(s: string): (p: Piece)
    ensures p.Nothing? <==> s == ""
    ensures p.Literal? ==> |p.rest| < |s|
    ensures p.Reference? ==> s == (if p.kind.Brace? then "${" + p.raw + "}" else "$%" + p.raw + "%") + p.after
    ensures p.Reference? ==> s == "$" + p.kept && 0 < |p.raw|
  {
    if s == "" then Nothing
    else if s[0] != '$' || |s| == 1 then Literal(s[0], s[1..])
    else if s[1] == '\\' then
      if |s| > 2 && s[2] in "rnt" then Literal(Escaped(s[2]), s[3..]) else Literal('$', s[1..])
    else if s[1] == '{' then
      var end := CloseBrace(s[2..], 0, 0);
      if 0 < end < |s| - 2 then Reference(Brace, s[2..][..end], s[2..][end + 1..], s[1..]) else Literal('$', s[1..])
    else if s[1] == '%' then
      var end := ClosePercent(s[2..], 0);
      if 0 < end < |s| - 2 then Reference(Percent, s[2..][..end], s[2..][end + 1..], s[1..]) else Literal('$', s[1..])
    else Literal('$', s[1..])
  }

  function Digit(d: nat): char
    requires d < 10
  {
    ('0' as int + d) as char
  }

  function Decimal(n: nat): (s: string)
    ensures Clean(s)
  {
    if n < 10 then [Digit(n)] else Decimal(n / 10) + [Digit(n % 10)]
  }

  predicate IsHex(c: char) {
    '0' <= c <= '9' || 'a' <= c <= 'f' || 'A' <= c <= 'F'
  }

  function HexDigit(c: char): nat
    requires IsHex(c)
  {
    if c <= '9' then c as int - '0' as int
    else if c <= 'F' then c as int - 'A' as int + 10
    else c as int - 'a' as int + 10
  }

  function HexValue(s: string): nat
    requires forall c :: c in s ==> IsHex(c)
  {
    if s == "" then 0 else 16 * HexValue(s[..|s| - 1]) + HexDigit(s[|s| - 1])
  }

  /** `${U+HEX}`: the character named, the replacement character when it is none, nothing for zero or no number. */
  function CodePoint(raw: string): Option<char> {
    if !("U+" <= raw) then None
    else
      var n := if |raw| > 4 && raw[2] == '0' && raw[3] in "xX" then raw[4..] else raw[2..];
      if n == "" || exists c :: c in n && !IsHex(c) then None
      else
        var v := HexValue(n);
        if v == 0 then None
        else if v < 0xD800 || 0xE000 <= v < 0x11_0000 then Some(v as char)
        else Some('\U{FFFD}')
  }

  const COUNTER := "__COUNTER__"

  /** The text for a reference: `raw` is the name as written, `name` the name after its own expansion, and
      `n` the number of times the counter was used before. */
  function Found(env: Env, kind: Kind, raw: string, name: string, n: nat): Option<string> {
    if kind.Percent? then (if name in env.vars then Some(env.vars[name]) else None)
    else if Fold(name) in env.defs then Some(env.defs[Fold(name)])
    else if raw == COUNTER then Some(Decimal(n % 0x1_0000_0000))
    else
      match CodePoint(raw)
      case None => None
      case Some(c) => Some([c])
  }

  /** How often a look-up uses the counter. */
  function Ticks(env: Env, kind: Kind, raw: string, name: string): nat {
    if kind.Brace? && Fold(name) !in env.defs && raw == COUNTER then 1 else 0
  }

  function Names(env: Env): set<string> {
    env.defs.Keys + (set k | k in env.vars :: Fold(k))
  }

  /** An expansion: the text, the uses of the counter so far, and whether the guard ever refused a name. */
  datatype Expanded = Expanded(text: string, count: nat, blocked: bool)

  function Power10(digits: nat): nat {
    if digits == 0 then 1 else 10 * Power10(digits - 1)
  }

  lemma {:induction false} DecimalIsShort(n: nat, digits: nat)
    requires 1 <= digits && n < Power10(digits)
    ensures |Decimal(n)| <= digits
  {
    if n >= 10 {
      assert Power10(1) == 10 * Power10(0);
      DecimalIsShort(n / 10, digits - 1);
    }
  }

  lemma CounterIsShort(n: nat)
    ensures |Decimal(n % 0x1_0000_0000)| <= 10
  {
    assert Power10(10) == 10_000_000_000 by {
      assert Power10(4) == 10_000;
      assert Power10(8) == 100_000_000;
    }
    DecimalIsShort(n % 0x1_0000_0000, 10);
  }

  /** Why expansion ends: a name being expanded is used up, and a text that comes from no definition is
      no longer than the name. */
  lemma Smaller(env: Env, hist: set<string>, kind: Kind, raw: string, name: string, n: nat)
    requires Found(env, kind, raw, name, n).Some? && Fold(name) !in hist
    ensures var t := Found(env, kind, raw, name, n).value;
            var left := Names(env) - (hist + {Fold(name)});
            left < Names(env) - hist || (left == Names(env) - hist && |t| <= |raw|)
  {
    CounterIsShort(n);
    if Fold(name) in Names(env) {
      assert Fold(name) in Names(env) - hist;
    } else {
      assert Names(env) - (hist + {Fold(name)}) == Names(env) - hist;
    }
  }

  /** What becomes of a reference: whether it is replaced, and by what. */
  datatype Referred = Referred(done: bool, text: string, count: nat, blocked: bool)

  ghost function Refer(env: Env, hist: set<string>, n: nat, kind: Kind, raw: string): (r: Referred)
    ensures !r.done ==> r.text == ""
    decreases Names(env) - hist, |raw| + 1
  {
    var name := Expand(env, hist, n, raw);
    var count := name.count + Ticks(env, kind, raw, name.text);
    match Found(env, kind, raw, name.text, name.count)
    case None => Referred(false, "", count, name.blocked)
    case Some(t) =>
      if Fold(name.text) in hist then Referred(false, "", count, true)
      else
        Smaller(env, hist, kind, raw, name.text, name.count);
        var body := Expand(env, hist + {Fold(name.text)}, count, t);
        Referred(true, body.text, body.count, name.blocked || body.blocked)
  }

  /** What a line means while the names in `hist` are being expanded. */
  ghost function Expand(env: Env, hist: set<string>, n: nat, s: string): Expanded
    decreases Names(env) - hist, |s|
  {
    match Scan(s)
    case Nothing => Expanded("", n, false)
    case Literal(c, rest) =>
      var e := Expand(env, hist, n, rest);
      e.(text := [c] + e.text)
    case Reference(kind, raw, after, kept) =>
      var r := Refer(env, hist, n, kind, raw);
      var e := Expand(env, hist, r.count, if r.done then after else kept);
      Expanded((if r.done then r.text else "$") + e.text, e.count, r.blocked || e.blocked)
  }

  /** The names of a history list. */
  ghost function Folded(entries: seq<string>): set<string> {
    set e | e in entries :: Fold(e)
  }

  lemma ScanIsClean(s: string)
    requires Clean(s)
    ensures var p := Scan(s);
            && (p.Literal? ==> p.c != '\0' && Clean(p.rest))
            && (p.Reference? ==> Clean(p.raw) && Clean(p.after) && Clean(p.kept))
  {
  }

  lemma FoundIsClean(env: Env, kind: Kind, raw: string, name: string, n: nat)
    requires WellFormed(env) && Found(env, kind, raw, name, n).Some?
    ensures Clean(Found(env, kind, raw, name, n).value)
  {
  }

  lemma {:induction false} ExpandIsClean(env: Env, hist: set<string>, n: nat, s: string)
    requires WellFormed(env) && Clean(s)
    ensures Clean(Expand(env, hist, n, s).text)
    decreases Names(env) - hist, |s|
  {
    hide Refer, Scan, Names, WellFormed;
    ScanIsClean(s);
    match Scan(s) {
      case Nothing =>
      case Literal(c, rest) => ExpandIsClean(env, hist, n, rest);
      case Reference(kind, raw, after, kept) =>
        ReferIsClean(env, hist, n, kind, raw);
        var r := Refer(env, hist, n, kind, raw);
        ExpandIsClean(env, hist, r.count, if r.done then after else kept);
    }
  }

  lemma {:induction false} ReferIsClean(env: Env, hist: set<string>, n: nat, kind: Kind, raw: string)
    requires WellFormed(env) && Clean(raw)
    ensures Clean(Refer(env, hist, n, kind, raw).text)
    decreases Names(env) - hist, |raw| + 1
  {
    hide Expand, Found, Ticks, Names, Fold, WellFormed, Clean;
    EmptyIsClean();
    var name := Expand(env, hist, n, raw);
    var t := Found(env, kind, raw, name.text, name.count);
    if t.Some? && Fold(name.text) !in hist {
      FoundIsClean(env, kind, raw, name.text, name.count);
      Smaller(env, hist, kind, raw, name.text, name.count);
      ExpandIsClean(env, hist + {Fold(name.text)}, name.count + Ticks(env, kind, raw, name.text), t.value);
    }
  }

  lemma EmptyIsClean()
    ensures Clean("")
  {
  }

  /** With `text` written and `s` still to come, `whole` is what is written in the end. */
  ghost predicate Owes(env: Env, hist: set<string>, whole: Expanded, text: string, n: nat, s: string) {
    whole.text == text + Expand(env, hist, n, s).text && whole.count == Expand(env, hist, n, s).count
  }

  lemma OweAll(env: Env, hist: set<string>, text: string, n: nat, s: string)
    ensures var e := Expand(env, hist, n, s); Owes(env, hist, e.(text := text + e.text), text, n, s)
  {
  }

  lemma OweNothing(env: Env, hist: set<string>, whole: Expanded, text: string, n: nat, s: string)
    requires Owes(env, hist, whole, text, n, s) && s == ""
    ensures whole.text == text && whole.count == n
  {
  }

  lemma OweStep(env: Env, hist: set<string>, whole: Expanded, text: string, n: nat, s: string)
    requires Owes(env, hist, whole, text, n, s)
    ensures Scan(s).Literal? ==> Owes(env, hist, whole, text + [Scan(s).c], n, Scan(s).rest)
    ensures Scan(s).Reference? ==>
              var r := Refer(env, hist, n, Scan(s).kind, Scan(s).raw);
              && (r.done ==> Owes(env, hist, whole, text + r.text, r.count, Scan(s).after))
              && (!r.done ==> Owes(env, hist, whole, text + "$", r.count, Scan(s).kept))
  {
    hide Scan, Refer;
  }

  /** The start of the text at `i`, in terms of positions in the whole line. */
  lemma ScanAt(str: string, i: nat)
    requires i < |str|
    ensures var p, kept := Scan(str[i..]), str[i + 1..];
            if str[i] != '$' || i + 1 == |str| then p == Literal(str[i], kept)
            else if str[i + 1] == '\\' && i + 2 < |str| && str[i + 2] in "rnt" then
              p == Literal(Escaped(str[i + 2]), str[i + 3..])
            else if str[i + 1] == '{' || str[i + 1] == '%' then
              var s := str[i + 2..];
              var t := if str[i + 1] == '{' then CloseBrace(s, 0, 0) else ClosePercent(s, 0);
              var kind := if str[i + 1] == '{' then Brace else Percent;
              if 0 < t < |s| then p == Reference(kind, s[..t], str[i + t + 3..], kept) else p == Literal('$', kept)
            else p == Literal('$', kept)
  {
    hide CloseBrace, ClosePercent;
    var s := str[i..];
    assert s[1..] == str[i + 1..];
    if |s| >= 2 {
      assert s[2..] == str[i + 2..];
      var t := if s[1] == '{' then CloseBrace(s[2..], 0, 0) else ClosePercent(s[2..], 0);
      if t < |s| - 2 {
        assert s[2..][t + 1..] == str[i + t + 3..];
      }
      if |s| > 2 {
        assert s[3..] == str[i + 3..];
      }
    }
  }

  class Preprocessor {
    const env: Env
    /** How often the counter was used; the source's own variable holds the low 32 bits. */
    var counter: nat

    constructor (env: Env)
      ensures this.env == env && counter == 0
    {
      this.env, counter := env, 0;
    }

    static method FindBrace(s: string) returns (t: nat)
      ensures t == CloseBrace(s, 0, 0)
    {
      var bn := 0;
      t := 0;
      while t < |s|
        invariant t <= |s| && CloseBrace(s, 0, 0) == CloseBrace(s, t, bn)
      {
        if s[t] == '{' {
          bn := bn + 1;
        }
        if s[t] == '}' {
          if bn == 0 {
            return;
          }
          bn := bn - 1;
        }
        t := t + 1;
      }
    }

    static method FindPercent(s: string) returns (t: nat)
      ensures t == ClosePercent(s, 0)
    {
      t := 0;
      while t < |s| && s[t] != '%'
        invariant t <= |s| && ClosePercent(s, 0) == ClosePercent(s, t)
      {
        t := t + 1;
      }
    }

    /** Expands the reference with the name `raw`, unless nothing is known by that name or it is already
        being expanded. */
    method AddReference(kind: Kind, raw: string, linedata: GrowBuf, hist: StringList) returns (done: bool)
      requires WellFormed(env) && Clean(raw) && hist.Valid()
      modifies this, linedata, hist
      ensures hist.Valid() && hist.entries == old(hist.entries)
      ensures var r := Refer(env, Folded(old(hist.entries)), old(counter), kind, raw);
              && done == r.done && counter == r.count
              && linedata.chars == if done then old(linedata.chars) + r.text else old(linedata.chars)
      decreases Names(env) - Folded(hist.entries), |raw| + 1
    {
      hide Expand, Found, Ticks, Names, Fold, WellFormed, Clean, Hit, FirstHit, Folded, Flat;
      ghost var before := hist.entries;
      var defname := new GrowBuf();
      AddToLine(raw, defname, hist);
      ExpandIsClean(env, Folded(hist.entries), old(counter), raw);
      var name := defname.chars;
      assert name == Expand(env, Folded(before), old(counter), raw).text;
      var t := Found(env, kind, raw, name, counter);
      ghost var count := counter;
      counter := counter + Ticks(env, kind, raw, name);
      done := false;
      if t.Some? {
        var at, idx := hist.Find(name, 0);
        if at < 0 {
          FoundIsClean(env, kind, raw, name, count);
          NotFolded(hist.entries, name);
          Smaller(env, Folded(hist.entries), kind, raw, name, count);
          done := true;
          at := hist.Add(name, 0);
          FoldedMore(before, name);
          AddToLine(t.value, linedata, hist);
          at, idx := hist.Find(name, 0);
          FoundAgain(before, name);
          OnlyLast(before, name, idx, at);
          hist.DelByPos(at);
        } else {
          HasFolded(hist.entries, name, idx, at);
        }
      }
    }

    /** Appends the expansion of `str`. */
    method AddToLine(str: string, linedata: GrowBuf, hist: StringList)
      requires WellFormed(env) && Clean(str) && hist.Valid()
      modifies this, linedata, hist
      ensures hist.Valid() && hist.entries == old(hist.entries)
      ensures var e := Expand(env, Folded(old(hist.entries)), old(counter), str);
              linedata.chars == old(linedata.chars) + e.text && counter == e.count
      decreases Names(env) - Folded(hist.entries), |str|
    {
      hide Scan, Expand, Refer, Owes, CloseBrace, ClosePercent, WellFormed, Clean, Names, Escaped, Folded, Fold, Flat;
      ghost var names, e := Folded(hist.entries), Expand(env, Folded(hist.entries), counter, str);
      ghost var before, whole := linedata.chars, e.(text := linedata.chars + e.text);
      OweAll(env, names, before, counter, str);
      var i := 0;
      while i < |str|
        invariant 0 <= i <= |str| && hist.Valid() && hist.entries == old(hist.entries)
        invariant Owes(env, names, whole, linedata.chars, counter, str[i..])
      {
        ScanAt(str, i);
        OweStep(env, names, whole, linedata.chars, counter, str[i..]);
        var c, add := str[i], true;
        i := i + 1;
        if c == '$' && i < |str| {
          if str[i] == '\\' {
            if i + 1 < |str| && str[i + 1] in "rnt" {
              c := Escaped(str[i + 1]);
              i := i + 2;
            }
          } else if str[i] == '{' {
            var s := str[i + 1..];
            var t := FindBrace(s);
            if t < |s| && t != 0 {
              CleanPart(str, i + 1, t);
              var done := AddReference(Brace, s[..t], linedata, hist);
              if done {
                i := i + t + 2;
                add := false;
              }
            }
          } else if str[i] == '%' {
            var s := str[i + 1..];
            var t := FindPercent(s);
            if t < |s| && t != 0 {
              CleanPart(str, i + 1, t);
              var done := AddReference(Percent, s[..t], linedata, hist);
              if done {
                i := i + t + 2;
                add := false;
              }
            }
          }
        }
        if add {
          var _ := linedata.Add([c]);
        }
      }
      OweNothing(env, names, whole, linedata.chars, counter, str[i..]);
    }
  }

  lemma HasFolded(entries: seq<string>, name: string, idx: nat, pos: int)
    requires FirstHit(entries, name, 0, idx, pos)
    ensures Fold(name) in Folded(entries)
  {
    assert entries[idx] in entries;
  }

  lemma CleanPart(str: string, i: nat, t: nat)
    requires Clean(str) && i + t <= |str|
    ensures Clean(str[i..][..t])
  {
  }

  lemma NotFolded(entries: seq<string>, name: string)
    requires forall e :: e in entries ==> Hit(e, name, 0).None?
    ensures Fold(name) !in Folded(entries)
  {
  }

  lemma FoldedMore(entries: seq<string>, name: string)
    ensures Folded(entries + [name]) == Folded(entries) + {Fold(name)}
  {
  }

  lemma FoundAgain(entries: seq<string>, name: string)
    ensures name in entries + [name] && Hit(name, name, 0).Some?
  {
  }

  /** A name added because it was not in the list is found where it was added. */
  lemma OnlyLast(entries: seq<string>, name: string, idx: nat, pos: int)
    requires forall e :: e in entries ==> Hit(e, name, 0).None?
    requires FirstHit(entries + [name], name, 0, idx, pos)
    ensures idx == |entries| && pos == |Flat(entries)|
  {
    assert (entries + [name])[..|entries|] == entries;
  }

  /* ---------- what the guard changes ---------- */

  datatype Plain = Plain(text: string, count: nat)

  function Prepend(text: string, rest: Option<Plain>): Option<Plain> {
    match rest
    case None => None
    case Some(e) => Some(e.(text := text + e.text))
  }

  /** Substitution without any guard, with at most `depth` texts inside each other; nothing if that is not enough. */
  ghost function Substitute(env: Env, n: nat, s: string, depth: nat): Option<Plain>
    decreases depth, |s|
  {
    match Scan(s)
    case Nothing => Some(Plain("", n))
    case Literal(c, rest) => Prepend([c], Substitute(env, n, rest, depth))
    case Reference(kind, raw, after, kept) =>
      match Replace(env, n, kind, raw, depth)
      case None => None
      case Some(r) =>
        Prepend(if r.done then r.text else "$", Substitute(env, r.count, if r.done then after else kept, depth))
  }

  ghost function Replace(env: Env, n: nat, kind: Kind, raw: string, depth: nat): (r: Option<Referred>)
    ensures r.Some? ==> !r.value.blocked
    decreases depth, |raw| + 1
  {
    match Substitute(env, n, raw, depth)
    case None => None
    case Some(name) =>
      var count := name.count + Ticks(env, kind, raw, name.text);
      match Found(env, kind, raw, name.text, name.count)
      case None => Some(Referred(false, "", count, false))
      case Some(t) =>
        if depth == 0 then None
        else
          match Substitute(env, count, t, depth - 1)
          case None => None
          case Some(body) => Some(Referred(true, body.text, body.count, false))
  }

  lemma {:induction false} DeeperIsSame(env: Env, n: nat, s: string, depth: nat, deeper: nat)
    requires Substitute(env, n, s, depth).Some? && depth <= deeper
    ensures Substitute(env, n, s, deeper) == Substitute(env, n, s, depth)
    ensures Substitute(env, n, s, depth).value.count >= n
    decreases depth, |s|
  {
    hide Scan, Replace;
    match Scan(s) {
      case Nothing =>
      case Literal(c, rest) => DeeperIsSame(env, n, rest, depth, deeper);
      case Reference(kind, raw, after, kept) =>
        DeeperReplace(env, n, kind, raw, depth, deeper);
        var r := Replace(env, n, kind, raw, depth).value;
        DeeperIsSame(env, r.count, if r.done then after else kept, depth, deeper);
    }
  }

  lemma {:induction false} DeeperReplace(env: Env, n: nat, kind: Kind, raw: string, depth: nat, deeper: nat)
    requires Replace(env, n, kind, raw, depth).Some? && depth <= deeper
    ensures Replace(env, n, kind, raw, deeper) == Replace(env, n, kind, raw, depth)
    ensures Replace(env, n, kind, raw, depth).value.count >= n
    decreases depth, |raw| + 1
  {
    hide Substitute, Found, Ticks;
    DeeperIsSame(env, n, raw, depth, deeper);
    var name := Substitute(env, n, raw, depth).value;
    var t := Found(env, kind, raw, name.text, name.count);
    if t.Some? {
      DeeperIsSame(env, name.count + Ticks(env, kind, raw, name.text), t.value, depth - 1, deeper - 1);
    }
  }

  /** Where the guard refused nothing, substitution without it stops, with the same result. */
  lemma {:induction false} GuardSilent(env: Env, hist: set<string>, n: nat, s: string) returns (depth: nat)
    requires !Expand(env, hist, n, s).blocked
    ensures var e := Expand(env, hist, n, s); Substitute(env, n, s, depth) == Some(Plain(e.text, e.count))
    decreases Names(env) - hist, |s|
  {
    hide Scan, Refer, Replace, Names;
    match Scan(s) {
      case Nothing => depth := 0;
      case Literal(c, rest) => depth := GuardSilent(env, hist, n, rest);
      case Reference(kind, raw, after, kept) =>
        var r := Refer(env, hist, n, kind, raw);
        var first := GuardSilentAt(env, hist, n, kind, raw);
        var next := if r.done then after else kept;
        var second := GuardSilent(env, hist, r.count, next);
        depth := Max(first, second);
        DeeperReplace(env, n, kind, raw, first, depth);
        DeeperIsSame(env, r.count, next, second, depth);
    }
  }

  lemma {:induction false} GuardSilentAt(env: Env, hist: set<string>, n: nat, kind: Kind, raw: string)
    returns (depth: nat)
    requires !Refer(env, hist, n, kind, raw).blocked
    ensures Replace(env, n, kind, raw, depth) == Some(Refer(env, hist, n, kind, raw))
    decreases Names(env) - hist, |raw| + 1
  {
    hide Expand, Substitute, Found, Ticks, Names, Fold;
    var name := Expand(env, hist, n, raw);
    var count := name.count + Ticks(env, kind, raw, name.text);
    var t := Found(env, kind, raw, name.text, name.count);
    var first := GuardSilent(env, hist, n, raw);
    depth := first;
    if t.Some? {
      Smaller(env, hist, kind, raw, name.text, name.count);
      var second := GuardSilent(env, hist + {Fold(name.text)}, count, t.value);
      depth := Max(first, second + 1);
      DeeperIsSame(env, count, t.value, second, depth - 1);
    }
    DeeperIsSame(env, n, raw, first, depth);
  }

  /** No two things that can be referred to share a name when case is ignored. */
  ghost predicate Unambiguous(env: Env) {
    && (forall a, b :: a in env.vars && b in env.vars && Fold(a) == Fold(b) ==> a == b)
    && (forall a :: a in env.vars ==>
          Fold(a) !in env.defs && !("u+" <= Fold(a)) && Fold(a) != Fold(COUNTER))
  }

  /** The texts being expanded: each is the text of its name, and no substitution less than `depth` deep
      gets to its end. */
  ghost predicate Active(env: Env, n: nat, active: map<string, string>, depth: nat) {
    forall k :: k in active ==>
      && k in Names(env)
      && (k in env.defs ==> active[k] == env.defs[k])
      && (forall v :: v in env.vars && Fold(v) == k ==> active[k] == env.vars[v])
      && (depth > 0 ==> Substitute(env, n, active[k], depth - 1).None?)
  }

  lemma {:induction false} PlainText(env: Env, hist: set<string>, n: nat, s: string)
    requires '$' !in s
    ensures Expand(env, hist, n, s) == Expanded(s, n, false)
  {
    if s != "" {
      PlainText(env, hist, n, s[1..]);
      assert s == [s[0]] + s[1..];
    }
  }

  /** A character of its own expands to itself, whatever it is. */
  lemma OneCharacter(env: Env, hist: set<string>, n: nat, c: char, depth: nat)
    ensures Expand(env, hist, n, [c]) == Expanded([c], n, false)
    ensures Substitute(env, n, [c], depth) == Some(Plain([c], n))
  {
    assert [c][1..] == "";
    assert Scan([c]) == Literal(c, "");
  }

  lemma {:induction false} Least(env: Env, n: nat, s: string, depth: nat) returns (least: nat)
    requires Substitute(env, n, s, depth).Some?
    ensures least <= depth && Substitute(env, n, s, least) == Substitute(env, n, s, depth)
    ensures least > 0 ==> Substitute(env, n, s, least - 1).None?
  {
    hide Substitute;
    if depth > 0 && Substitute(env, n, s, depth - 1).Some? {
      least := Least(env, n, s, depth - 1);
      DeeperIsSame(env, n, s, depth - 1, depth);
    } else {
      least := depth;
    }
  }

  lemma ActiveMore(env: Env, n: nat, active: map<string, string>, depth: nat, key: string, t: string, least: nat)
    requires Active(env, n, active, depth) && least < depth
    requires key in Names(env) && (key in env.defs ==> t == env.defs[key])
    requires forall v :: v in env.vars && Fold(v) == key ==> t == env.vars[v]
    requires least > 0 ==> Substitute(env, n, t, least - 1).None?
    ensures Active(env, n, active[key := t], least)
  {
    hide Substitute, Names, Fold;
    if least > 0 {
      forall k | k in active
        ensures Substitute(env, n, active[k], least - 1).None?
      {
        if Substitute(env, n, active[k], least - 1).Some? {
          DeeperIsSame(env, n, active[k], least - 1, depth - 1);
        }
      }
    }
  }

  /** Where a look-up comes from a definition, the text is the only one for its name. */
  lemma FoundIsUnique(env: Env, n: nat, active: map<string, string>, depth: nat, kind: Kind, raw: string, name: string)
    requires Unambiguous(env) && Active(env, n, active, depth)
    requires Found(env, kind, raw, name, n).Some? && Fold(name) in Names(env)
    requires kind.Brace? ==> Fold(name) in env.defs
    ensures var t := Found(env, kind, raw, name, n).value;
            && (Fold(name) in env.defs ==> t == env.defs[Fold(name)])
            && (forall v :: v in env.vars && Fold(v) == Fold(name) ==> t == env.vars[v])
            && (Fold(name) in active ==> active[Fold(name)] == t)
  {
    hide Substitute, Fold;
  }

  lemma {:induction false} UnblockedAt(env: Env, n: nat, kind: Kind, raw: string, depth: nat,
                                       active: map<string, string>)
    requires Unambiguous(env) && Active(env, n, active, depth)
    requires Replace(env, n, kind, raw, depth).Some? && Replace(env, n, kind, raw, depth).value.count == n
    ensures Refer(env, active.Keys, n, kind, raw) == Replace(env, n, kind, raw, depth).value
    decreases depth, |raw| + 1
  {
    hide Substitute, Expand, Names, Fold, Active, Unambiguous, CodePoint;
    var name := Substitute(env, n, raw, depth).value;
    DeeperIsSame(env, n, raw, depth, depth);
    var t := Found(env, kind, raw, name.text, name.count);
    var key := Fold(name.text);
    if t.Some? {
      var count := name.count + Ticks(env, kind, raw, name.text);
      DeeperIsSame(env, count, t.value, depth - 1, depth - 1);
    }
    Unblocked(env, n, raw, depth, active);
    if t.Some? {
      if kind.Brace? && key !in env.defs {
        CodePointInactive(env, n, active, depth, raw);
        OneCharacter(env, active.Keys + {key}, n, CodePoint(raw).value, depth - 1);
      } else {
        KeyIsName(env, kind, raw, name.text, n);
        FoundIsUnique(env, n, active, depth, kind, raw, name.text);
        NotActive(env, n, active, depth, key, t.value);
        var least := Least(env, n, t.value, depth - 1);
        ActiveMore(env, n, active, depth, key, t.value, least);
        Unblocked(env, n, t.value, least, active[key := t.value]);
        assert active[key := t.value].Keys == active.Keys + {key};
      }
    }
  }

  /** A code point is never taken for a name being expanded: its text starts with the two letters `U+`. */
  lemma CodePointInactive(env: Env, n: nat, active: map<string, string>, depth: nat, raw: string)
    requires Unambiguous(env) && Active(env, n, active, depth)
    requires CodePoint(raw).Some? && Fold(Expand(env, active.Keys, n, raw).text) !in env.defs
    ensures Fold(Expand(env, active.Keys, n, raw).text) !in active
  {
  }

  lemma KeyIsName(env: Env, kind: Kind, raw: string, name: string, n: nat)
    requires Found(env, kind, raw, name, n).Some? && (kind.Brace? ==> Fold(name) in env.defs)
    ensures Fold(name) in Names(env)
  {
  }

  lemma NotActive(env: Env, n: nat, active: map<string, string>, depth: nat, key: string, t: string)
    requires Active(env, n, active, depth) && depth > 0 && Substitute(env, n, t, depth - 1).Some?
    requires key in active ==> active[key] == t
    ensures key !in active
  {
  }

  lemma {:induction false} Unblocked(env: Env, n: nat, s: string, depth: nat, active: map<string, string>)
    requires Unambiguous(env) && Active(env, n, active, depth)
    requires Substitute(env, n, s, depth).Some? && Substitute(env, n, s, depth).value.count == n
    ensures Expand(env, active.Keys, n, s) == Expanded(Substitute(env, n, s, depth).value.text, n, false)
    decreases depth, |s|
  {
    hide Scan, Refer, Replace, Names, Active, Unambiguous;
    match Scan(s) {
      case Nothing =>
      case Literal(c, rest) => Unblocked(env, n, rest, depth, active);
      case Reference(kind, raw, after, kept) =>
        DeeperReplace(env, n, kind, raw, depth, depth);
        var r := Replace(env, n, kind, raw, depth).value;
        var next := if r.done then after else kept;
        DeeperIsSame(env, r.count, next, depth, depth);
        UnblockedAt(env, n, kind, raw, depth, active);
        Unblocked(env, n, next, depth, active);
    }
  }

  /** Of definitions that can be told apart, and a line that does not use the counter: the guard refuses a
      name exactly when substitution without the guard would never stop, and otherwise changes nothing. */
  lemma GuardIsExact(env: Env, n: nat, s: string)
    requires Unambiguous(env)
    ensures var e := Expand(env, {}, n, s);
            && (forall depth :: Substitute(env, n, s, depth).Some? && Substitute(env, n, s, depth).value.count == n ==>
                                  e == Expanded(Substitute(env, n, s, depth).value.text, n, false))
            && (!e.blocked ==> exists depth :: Substitute(env, n, s, depth) == Some(Plain(e.text, e.count)))
  {
    hide Substitute, Expand, Unambiguous;
    var e := Expand(env, {}, n, s);
    forall depth | Substitute(env, n, s, depth).Some? && Substitute(env, n, s, depth).value.count == n
      ensures e == Expanded(Substitute(env, n, s, depth).value.text, n, false)
    {
      var none: map<string, string> := map[];
      assert none.Keys == {};
      Unblocked(env, n, s, depth, none);
    }
    if !e.blocked {
      var depth := GuardSilent(env, {}, n, s);
    }
  }

  /** The text contains the name of the counter. */
  ghost predicate Mentions(s: string) {
    exists i :: MentionedAt(s, i)
  }

  predicate MentionedAt(s: string, i: int) {
    0 <= i && i + |COUNTER| <= |s| && s[i..i + |COUNTER|] == COUNTER
  }

  /** The counter is not used: its name is defined, or neither the line nor any value mentions it. */
  ghost predicate CounterIdle(env: Env, s: string) {
    || Fold(COUNTER) in env.defs
    || (&& !Mentions(s)
        && (forall k :: k in env.defs ==> !Mentions(env.defs[k]))
        && (forall k :: k in env.vars ==> !Mentions(env.vars[k])))
  }

  lemma PartMentions(s: string, i: nat, j: nat)
    requires i <= j <= |s| && Mentions(s[i..j])
    ensures Mentions(s)
  {
    var t := s[i..j];
    var k :| MentionedAt(t, k);
    var here, there := t[k..k + |COUNTER|], s[i + k..i + k + |COUNTER|];
    assert forall m :: 0 <= m < |COUNTER| ==> here[m] == there[m];
    assert here == there;
    assert MentionedAt(s, i + k);
  }

  lemma ScanIdle(env: Env, s: string)
    requires CounterIdle(env, s)
    ensures var p := Scan(s);
            && (p.Literal? ==> CounterIdle(env, p.rest))
            && (p.Reference? ==> CounterIdle(env, p.raw) && CounterIdle(env, p.after) && CounterIdle(env, p.kept))
  {
    hide Mentions, CloseBrace, ClosePercent, Fold;
    if Fold(COUNTER) !in env.defs {
      forall i: nat, j: nat | i <= j <= |s|
        ensures !Mentions(s[i..j])
      {
        if Mentions(s[i..j]) {
          PartMentions(s, i, j);
        }
      }
      var p := Scan(s);
      if p.Reference? {
        assert p.raw == s[2..2 + |p.raw|] && p.kept == s[1..|s|] && p.after == s[3 + |p.raw|..|s|];
      } else if p.Literal? {
        var k := |s| - |p.rest|;
        assert p.rest == s[k..|s|];
      }
    }
  }

  /** Without the counter a look-up counts nothing, and what it finds does not use it either. */
  lemma FoundIdle(env: Env, n: nat, kind: Kind, raw: string, name: string)
    requires CounterIdle(env, raw) && (raw == COUNTER ==> name == COUNTER)
    ensures Ticks(env, kind, raw, name) == 0
    ensures Found(env, kind, raw, name, n).Some? ==> CounterIdle(env, Found(env, kind, raw, name, n).value)
  {
    hide Fold, CodePoint;
    assert MentionedAt(COUNTER, 0);
  }

  lemma {:induction false} IdleExpand(env: Env, hist: set<string>, n: nat, s: string)
    requires CounterIdle(env, s)
    ensures Expand(env, hist, n, s).count == n
    decreases Names(env) - hist, |s|
  {
    hide Scan, Refer, Names, CounterIdle;
    ScanIdle(env, s);
    match Scan(s) {
      case Nothing =>
      case Literal(c, rest) => IdleExpand(env, hist, n, rest);
      case Reference(kind, raw, after, kept) =>
        IdleRefer(env, hist, n, kind, raw);
        IdleExpand(env, hist, n, if Refer(env, hist, n, kind, raw).done then after else kept);
    }
  }

  lemma {:induction false} IdleRefer(env: Env, hist: set<string>, n: nat, kind: Kind, raw: string)
    requires CounterIdle(env, raw)
    ensures Refer(env, hist, n, kind, raw).count == n
    decreases Names(env) - hist, |raw| + 1
  {
    hide Expand, Found, Ticks, Names, Fold, CounterIdle;
    IdleExpand(env, hist, n, raw);
    PlainText(env, hist, n, COUNTER);
    var name := Expand(env, hist, n, raw).text;
    FoundIdle(env, n, kind, raw, name);
    var t := Found(env, kind, raw, name, n);
    if t.Some? && Fold(name) !in hist {
      Smaller(env, hist, kind, raw, name, n);
      IdleExpand(env, hist + {Fold(name)}, n, t.value);
    }
  }

  lemma {:induction false} IdleSubstitute(env: Env, n: nat, s: string, depth: nat)
    requires CounterIdle(env, s) && Substitute(env, n, s, depth).Some?
    ensures Substitute(env, n, s, depth).value.count == n
    decreases depth, |s|
  {
    hide Scan, Replace, CounterIdle;
    ScanIdle(env, s);
    match Scan(s) {
      case Nothing =>
      case Literal(c, rest) => IdleSubstitute(env, n, rest, depth);
      case Reference(kind, raw, after, kept) =>
        IdleReplace(env, n, kind, raw, depth);
        IdleSubstitute(env, n, if Replace(env, n, kind, raw, depth).value.done then after else kept, depth);
    }
  }

  lemma {:induction false} IdleReplace(env: Env, n: nat, kind: Kind, raw: string, depth: nat)
    requires CounterIdle(env, raw) && Replace(env, n, kind, raw, depth).Some?
    ensures Replace(env, n, kind, raw, depth).value.count == n
    decreases depth, |raw| + 1
  {
    hide Substitute, Found, Ticks, Fold, CounterIdle;
    IdleSubstitute(env, n, raw, depth);
    PlainSubstitute(env, n, COUNTER, depth);
    var name := Substitute(env, n, raw, depth).value.text;
    FoundIdle(env, n, kind, raw, name);
    var t := Found(env, kind, raw, name, n);
    if t.Some? {
      IdleSubstitute(env, n, t.value, depth - 1);
    }
  }

  /** Of definitions that can be told apart, and where the counter is not used, by what can be read off the line
      and the values: the guard refuses a name exactly when plain substitution never stops, and where it stops,
      the result is the same. */
  lemma GuardDecides(env: Env, n: nat, s: string)
    requires Unambiguous(env) && CounterIdle(env, s)
    ensures var e := Expand(env, {}, n, s);
            && (e.blocked <==> forall depth :: Substitute(env, n, s, depth).None?)
            && (forall depth :: Substitute(env, n, s, depth).Some? ==>
                  Substitute(env, n, s, depth) == Some(Plain(e.text, n)))
  {
    hide Substitute, Expand, Unambiguous, CounterIdle;
    GuardIsExact(env, n, s);
    forall depth | Substitute(env, n, s, depth).Some?
      ensures Substitute(env, n, s, depth).value.count == n
    {
      IdleSubstitute(env, n, s, depth);
    }
  }

  lemma {:induction false} PlainSubstitute(env: Env, n: nat, s: string, depth: nat)
    requires '$' !in s
    ensures Substitute(env, n, s, depth) == Some(Plain(s, n))
  {
    if s != "" {
      PlainSubstitute(env, n, s[1..], depth);
      assert s == [s[0]] + s[1..];
    }
  }

  /** A reference by a plain name. */
  lemma PlainReference(env: Env, hist: set<string>, n: nat, kind: Kind, raw: string, depth: nat)
    requires '$' !in raw && raw != COUNTER
    ensures var t := Found(env, kind, raw, raw, n);
            && (t.Some? && Fold(raw) in hist ==> Refer(env, hist, n, kind, raw) == Referred(false, "", n, true))
            && (t.Some? && Fold(raw) !in hist ==>
                  var body := Expand(env, hist + {Fold(raw)}, n, t.value);
                  Refer(env, hist, n, kind, raw) == Referred(true, body.text, body.count, body.blocked))
            && (t.Some? && depth > 0 && Substitute(env, n, t.value, depth - 1).Some? ==>
                  var body := Substitute(env, n, t.value, depth - 1).value;
                  Replace(env, n, kind, raw, depth) == Some(Referred(true, body.text, body.count, false)))
  {
    hide Expand, Substitute, Found, Fold;
    PlainText(env, hist, n, raw);
    PlainSubstitute(env, n, raw, depth);
  }

  /** A line that starts with a reference and has no other. */
  lemma PlainRest(env: Env, hist: set<string>, n: nat, s: string, depth: nat)
    requires Scan(s).Reference? && '$' !in Scan(s).after && '$' !in Scan(s).kept
    ensures var p, r := Scan(s), Refer(env, hist, n, Scan(s).kind, Scan(s).raw);
            Expand(env, hist, n, s) ==
            if r.done then Expanded(r.text + p.after, r.count, r.blocked)
            else Expanded("$" + p.kept, r.count, r.blocked)
    ensures var p, r := Scan(s), Replace(env, n, Scan(s).kind, Scan(s).raw, depth);
            r.Some? && r.value.done ==>
              Substitute(env, n, s, depth) == Some(Plain(r.value.text + p.after, r.value.count))
  {
    hide Scan, Refer, Replace;
    var p, r, q := Scan(s), Refer(env, hist, n, Scan(s).kind, Scan(s).raw),
        Replace(env, n, Scan(s).kind, Scan(s).raw, depth);
    PlainText(env, hist, r.count, if r.done then p.after else p.kept);
    if q.Some? {
      PlainSubstitute(env, q.value.count, p.after, depth);
    }
  }

  predicate NoBraces(s: string) {
    '{' !in s && '}' !in s
  }

  lemma {:induction false} CloseSkips(s: string, i: nat, j: nat, depth: nat)
    requires i <= j <= |s| && NoBraces(s[i..j])
    ensures CloseBrace(s, i, depth) == CloseBrace(s, j, depth)
    decreases j - i
  {
    if i < j {
      assert s[i] == s[i..j][0] && s[i + 1..j] == s[i..j][1..];
      CloseSkips(s, i + 1, j, depth);
    }
  }

  /** A line that is a name in braces; `t` is the name and the closing brace. */
  lemma ScanName(s: string, t: string)
    requires |t| > 1 && s == "${" + t && CloseBrace(t, 0, 0) == |t| - 1
    ensures Scan(s) == Reference(Brace, t[..|t| - 1], "", s[1..])
  {
    hide Scan, CloseBrace;
    ScanAt(s, 0);
    assert s[0..] == s;
    assert s[2..] == t;
  }

  lemma ClosesAfter(t: string)
    requires t != "" && t[|t| - 1] == '}' && NoBraces(t[..|t| - 1])
    ensures CloseBrace(t, 0, 0) == |t| - 1
  {
    assert t[0..|t| - 1] == t[..|t| - 1];
    CloseSkips(t, 0, |t| - 1, 0);
  }

  /* How such definitions arise: a line is expanded before it defines anything, so a dollar sign stays in a
     value only if another define brought it there, or the command line. */

  /** `!define` with a name and a value as written. */
  ghost function Define(env: Env, n: nat, name: string, written: string): (Env, nat) {
    var e := Expand(env, {}, n, written);
    (env.(defs := env.defs[Fold(name) := e.text]), e.count)
  }

  /** Lines that define names, one after the other. */
  ghost function DefineAll(env: Env, n: nat, lines: seq<(string, string)>): (Env, nat) {
    if lines == [] then (env, n)
    else
      var (before, m) := DefineAll(env, n, lines[..|lines| - 1]);
      Define(before, m, lines[|lines| - 1].0, lines[|lines| - 1].1)
  }

  /** Text without a dollar sign in front changes nothing. */
  lemma {:induction false} PlainPrefix(env: Env, hist: set<string>, n: nat, a: string, b: string)
    requires '$' !in a
    ensures var e := Expand(env, hist, n, b); Expand(env, hist, n, a + b) == e.(text := a + e.text)
    decreases |a|
  {
    hide Expand;
    if a == "" {
      assert a + b == b;
    } else {
      PlainPrefix(env, hist, n, a[1..], b);
      var e := Expand(env, hist, n, b);
      LiteralFirst(env, hist, n, a[0], a[1..] + b);
      assert [a[0]] + (a[1..] + b) == a + b && [a[0]] + (a[1..] + e.text) == a + e.text;
    }
  }

  lemma LiteralFirst(env: Env, hist: set<string>, n: nat, c: char, s: string)
    requires c != '$'
    ensures var e := Expand(env, hist, n, s); Expand(env, hist, n, [c] + s) == e.(text := [c] + e.text)
  {
    hide Refer;
    assert ([c] + s)[1..] == s;
    assert Scan([c] + s) == Literal(c, s);
  }

  lemma ScanDollarName(rest: string)
    ensures Scan("${D}" + rest) == Reference(Brace, "D", rest, "{D}" + rest)
  {
    hide Scan;
    var s, t := "${D}" + rest, "D}" + rest;
    ScanAt(s, 0);
    assert s[0..] == s && s[2..] == t && s[1..] == "{D}" + rest && s[4..] == rest;
    assert CloseBrace(t, 0, 0) == CloseBrace(t, 1, 0) == 1;
    assert t[..1] == "D";
  }

  /** A dollar sign that another define puts in front of a text. */
  lemma AssembledDollar(env: Env, n: nat, rest: string)
    requires "d" in env.defs && env.defs["d"] == "$"
    ensures var e := Expand(env, {}, n, rest);
            Expand(env, {}, n, "${D}" + rest) == Expanded("$" + e.text, e.count, e.blocked)
  {
    hide Scan, Expand, Refer, Substitute, Replace;
    ScanDollarName(rest);
    assert Fold("D") == "d";
    PlainReference(env, {}, n, Brace, "D", 0);
    OneCharacter(env, {} + {"d"}, n, '$', 0);
    ReferenceFirst(env, n, "${D}" + rest);
  }

  lemma ReferenceFirst(env: Env, n: nat, s: string)
    requires Scan(s).Reference? && Refer(env, {}, n, Scan(s).kind, Scan(s).raw).done
    ensures var r := Refer(env, {}, n, Scan(s).kind, Scan(s).raw);
            var e := Expand(env, {}, r.count, Scan(s).after);
            Expand(env, {}, n, s) == Expanded(r.text + e.text, e.count, r.blocked || e.blocked)
  {
    hide Scan, Refer;
  }

  const BIN := map["PATH" := "/bin"]

  const SHARED := Env(map["d" := "$", "path" := "$%PATH%"], BIN)

  /** `!define D "$"` and `!define PATH "${D}%PATH%"`. */
  lemma SharedArises()
    ensures DefineAll(Env(map[], BIN), 0, [("D", "$"), ("PATH", "${D}%PATH%")]) == (SHARED, 0)
  {
    hide Expand;
    var first, second := ("D", "$"), ("PATH", "${D}%PATH%");
    var env := Env(map["d" := "$"], BIN);
    assert [first][..0] == [] && [first, second][..1] == [first];
    assert Fold("D") == "d" && Fold("PATH") == "path";
    OneCharacter(Env(map[], BIN), {}, 0, '$', 0);
    assert DefineAll(Env(map[], BIN), 0, [first]) == (env, 0);
    AssembledDollar(env, 0, "%PATH%");
    PlainText(env, {}, 0, "%PATH%");
    assert "${D}" + "%PATH%" == "${D}%PATH%" && "$" + "%PATH%" == "$%PATH%";
    assert env.defs["path" := "$%PATH%"] == SHARED.defs;
  }

  /** Written without that detour, the line stores the value of the variable. */
  lemma PlainDefineStoresValue()
    ensures Define(Env(map[], BIN), 0, "PATH", "$%PATH%") == (Env(map["path" := "/bin"], BIN), 0)
  {
    hide Scan, Expand, Refer, Substitute, Replace;
    var env := Env(map[], BIN);
    assert Fold("PATH") == "path";
    ScanSharedVariable();
    PlainReference(env, {}, 0, Percent, "PATH", 0);
    PlainText(env, {} + {"path"}, 0, "/bin");
    ReferenceFirst(env, 0, "$%PATH%");
    PlainText(env, {}, 0, "");
    assert "/bin" + "" == "/bin" && (map[])["path" := "/bin"] == map["path" := "/bin"];
  }

  lemma ScanSharedVariable()
    ensures Scan("$%PATH%") == Reference(Percent, "PATH", "", "%PATH%")
  {
    ScanAt("$%PATH%", 0);
    assert "$%PATH%"[0..] == "$%PATH%" && "$%PATH%"[2..] == "PATH%";
    assert ClosePercent("PATH%", 0) == ClosePercent("PATH%", 2) == 4;
    assert "PATH%"[..4] == "PATH" && "$%PATH%"[7..] == "" && "$%PATH%"[1..] == "%PATH%";
  }

  lemma SharedNames()
    ensures Fold("path") == "path" && Fold("PATH") == "path" && WellFormed(SHARED)
    ensures Found(SHARED, Brace, "PATH", "PATH", 0) == Some("$%PATH%")
    ensures Found(SHARED, Percent, "PATH", "PATH", 0) == Some("/bin")
  {
  }

  /** A define that takes its value from the environment variable of the same name stays unexpanded:
      the guard does not see that the two are different. */
  lemma SharedNameIsRefused()
    ensures WellFormed(SHARED)
    ensures Expand(SHARED, {}, 0, "${PATH}") == Expanded("$%PATH%", 0, true)
    ensures Substitute(SHARED, 0, "${PATH}", 2) == Some(Plain("/bin", 0))
  {
    hide Scan, CloseBrace, Fold, Found, Expand, Refer, Substitute, Replace, WellFormed;
    SharedNames();
    assert "PATH}"[..4] == "PATH" && "${PATH}"[1..] == "{PATH}";
    ClosesAfter("PATH}");
    ScanName("${PATH}", "PATH}");
    ScanSharedVariable();
    assert {} + {"path"} == {"path"} && "/bin" + "" == "/bin" && "$%PATH%" + "" == "$%PATH%";
    PlainSubstitute(SHARED, 0, "/bin", 0);
    PlainReference(SHARED, {"path"}, 0, Percent, "PATH", 1);
    PlainRest(SHARED, {"path"}, 0, "$%PATH%", 1);
    PlainReference(SHARED, {}, 0, Brace, "PATH", 2);
    PlainRest(SHARED, {}, 0, "${PATH}", 2);
  }

  /* The counter, the other way in which the guard and plain substitution can differ. */

  /** A reference whose name expands to `name`, the same with and without the guard. */
  lemma NamedReference(env: Env, hist: set<string>, n: nat, raw: string, depth: nat, name: string, m: nat, t: string)
    requires Expand(env, hist, n, raw) == Expanded(name, m, false)
        && Substitute(env, n, raw, depth) == Some(Plain(name, m))
    requires Fold(name) in env.defs && env.defs[Fold(name)] == t && depth > 0
    ensures Fold(name) in hist ==> Refer(env, hist, n, Brace, raw) == Referred(false, "", m, true)
    ensures Fold(name) !in hist ==>
              var body := Expand(env, hist + {Fold(name)}, m, t);
              Refer(env, hist, n, Brace, raw) == Referred(true, body.text, body.count, body.blocked)
    ensures Substitute(env, m, t, depth - 1).Some? ==>
              var body := Substitute(env, m, t, depth - 1).value;
              Replace(env, n, Brace, raw, depth) == Some(Referred(true, body.text, body.count, false))
  {
    hide Expand, Substitute, Fold;
  }

  lemma CounterReference(env: Env, hist: set<string>, n: nat, depth: nat)
    requires Fold(COUNTER) !in env.defs && Fold(COUNTER) !in hist && n < 10 && depth > 0
    ensures Refer(env, hist, n, Brace, COUNTER) == Referred(true, [Digit(n)], n + 1, false)
    ensures Replace(env, n, Brace, COUNTER, depth) == Some(Referred(true, [Digit(n)], n + 1, false))
  {
    hide Expand, Substitute, Fold;
    PlainText(env, hist, n, COUNTER);
    PlainSubstitute(env, n, COUNTER, depth);
    OneCharacter(env, hist + {Fold(COUNTER)}, n + 1, Digit(n), depth - 1);
    assert Decimal(n % 0x1_0000_0000) == [Digit(n)];
  }

  /** A line that is nothing but one reference. */
  lemma OnlyReference(env: Env, hist: set<string>, n: nat, s: string, depth: nat)
    requires Scan(s).Reference? && Scan(s).after == ""
    ensures var r := Refer(env, hist, n, Scan(s).kind, Scan(s).raw);
            r.done ==> Expand(env, hist, n, s) == Expanded(r.text, r.count, r.blocked)
    ensures var r := Replace(env, n, Scan(s).kind, Scan(s).raw, depth);
            r.Some? && r.value.done ==> Substitute(env, n, s, depth) == Some(Plain(r.value.text, r.value.count))
  {
    hide Scan, Refer, Replace;
    var r, q := Refer(env, hist, n, Scan(s).kind, Scan(s).raw), Replace(env, n, Scan(s).kind, Scan(s).raw, depth);
    if r.done {
      PlainText(env, hist, r.count, "");
      assert r.text + "" == r.text;
    }
    if q.Some? && q.value.done {
      PlainSubstitute(env, q.value.count, "", depth);
      assert q.value.text + "" == q.value.text;
    }
  }

  const COUNTING := Env(map["d" := "$", "x" := "${Y${__COUNTER__}}", "y0" := "${X}", "y1" := "done"], map[])

  const COUNTING_LINES := [("D", "$"), ("X", "${D}{Y${D}{__COUNTER__}}"), ("Y0", "${D}{X}"), ("Y1", "done")]

  /** These four `!define` lines give those definitions. */
  lemma CountingArises()
    ensures DefineAll(Env(map[], map[]), 0, COUNTING_LINES) == (COUNTING, 0)
  {
    hide Expand, Fold;
    CountingFolds();
    var none: Env := Env(map[], map[]);
    var env1 := none.(defs := map["d" := "$"]);
    var env2 := env1.(defs := env1.defs["x" := "${Y${__COUNTER__}}"]);
    var env3 := env2.(defs := env2.defs["y0" := "${X}"]);
    var lines := COUNTING_LINES;
    OneCharacter(none, {}, 0, '$', 0);
    assert lines[..1][..0] == [] && lines[..2][..1] == lines[..1] && lines[..3][..2] == lines[..2];
    assert lines[..4] == lines && lines[..4][..3] == lines[..3];
    assert DefineAll(none, 0, lines[..1]) == (env1, 0);
    CountingText(env1);
    assert DefineAll(none, 0, lines[..2]) == (env2, 0);
    AssembledDollar(env2, 0, "{X}");
    PlainText(env2, {}, 0, "{X}");
    assert "${D}" + "{X}" == "${D}{X}" && "$" + "{X}" == "${X}";
    assert DefineAll(none, 0, lines[..3]) == (env3, 0);
    PlainText(env3, {}, 0, "done");
    assert env3.defs["y1" := "done"] == COUNTING.defs;
  }

  lemma CountingFolds()
    ensures Fold("D") == "d" && Fold("X") == "x" && Fold("Y0") == "y0" && Fold("Y1") == "y1"
  {
  }

  lemma CountingText(env: Env)
    requires "d" in env.defs && env.defs["d"] == "$"
    ensures Expand(env, {}, 0, "${D}{Y${D}{__COUNTER__}}") == Expanded("${Y${__COUNTER__}}", 0, false)
  {
    hide Expand, Fold;
    var inner := "${D}{__COUNTER__}}";
    InnerText(env);
    PlainPrefix(env, {}, 0, "{Y", inner);
    AssembledDollar(env, 0, "{Y" + inner);
    assert "${D}" + ("{Y" + inner) == "${D}{Y${D}{__COUNTER__}}";
    assert "$" + ("{Y" + "${__COUNTER__}}") == "${Y${__COUNTER__}}";
  }

  lemma InnerText(env: Env)
    requires "d" in env.defs && env.defs["d"] == "$"
    ensures Expand(env, {}, 0, "${D}{__COUNTER__}}") == Expanded("${__COUNTER__}}", 0, false)
  {
    hide Expand, Fold;
    PlainText(env, {}, 0, "{__COUNTER__}}");
    AssembledDollar(env, 0, "{__COUNTER__}}");
    assert "${D}" + "{__COUNTER__}}" == "${D}{__COUNTER__}}" && "$" + "{__COUNTER__}}" == "${__COUNTER__}}";
  }

  const INNER := "Y${__COUNTER__}"

  lemma ScanCounter()
    ensures Scan("${__COUNTER__}") == Reference(Brace, COUNTER, "", "{__COUNTER__}")
  {
    hide Scan, CloseBrace;
    assert "__COUNTER__}"[..11] == COUNTER && "${__COUNTER__}"[1..] == "{__COUNTER__}";
    ClosesAfter("__COUNTER__}");
    ScanName("${__COUNTER__}", "__COUNTER__}");
  }

  lemma ScanX()
    ensures Scan("${X}") == Reference(Brace, "X", "", "{X}")
  {
    hide Scan, CloseBrace;
    assert "X}"[..1] == "X" && "${X}"[1..] == "{X}";
    ClosesAfter("X}");
    ScanName("${X}", "X}");
  }

  lemma ScanCounting()
    ensures Scan("${X}") == Reference(Brace, "X", "", "{X}")
    ensures Scan("${__COUNTER__}") == Reference(Brace, COUNTER, "", "{__COUNTER__}")
    ensures Scan("${Y${__COUNTER__}}") == Reference(Brace, INNER, "", "{Y${__COUNTER__}}")
  {
    hide Scan, CloseBrace, NoBraces;
    ScanX();
    ScanCounter();
    InnerCloses();
    assert "Y${__COUNTER__}}"[..15] == INNER && "${Y${__COUNTER__}}"[1..] == "{Y${__COUNTER__}}";
    ScanName("${Y${__COUNTER__}}", "Y${__COUNTER__}}");
  }

  lemma InnerCloses()
    ensures CloseBrace("Y${__COUNTER__}}", 0, 0) == 15
  {
    var s := "Y${__COUNTER__}}";
    assert s[0..2] == "Y$" && s[3..14] == COUNTER;
    CloseSkips(s, 0, 2, 0);
    assert s[2] == '{' && s[14] == '}' && s[15] == '}';
    CloseSkips(s, 3, 14, 1);
  }

  /** The inner name: a letter and the number of times the counter was used before. */
  lemma InnerName(hist: set<string>, n: nat, depth: nat)
    requires Fold(COUNTER) !in hist && n < 10 && depth > 0
    ensures Expand(COUNTING, hist, n, INNER) == Expanded(['Y', Digit(n)], n + 1, false)
    ensures Substitute(COUNTING, n, INNER, depth) == Some(Plain(['Y', Digit(n)], n + 1))
  {
    hide Scan, Expand, Refer, Substitute, Replace, Fold;
    CountingNames();
    ScanCounting();
    CounterReference(COUNTING, hist, n, depth);
    OnlyReference(COUNTING, hist, n, "${__COUNTER__}", depth);
    InnerStarts(hist, n, depth);
  }

  lemma InnerStarts(hist: set<string>, n: nat, depth: nat)
    ensures var e := Expand(COUNTING, hist, n, "${__COUNTER__}");
            Expand(COUNTING, hist, n, INNER) == e.(text := ['Y'] + e.text)
    ensures Substitute(COUNTING, n, INNER, depth) == Prepend(['Y'], Substitute(COUNTING, n, "${__COUNTER__}", depth))
  {
    hide Refer, Replace, CloseBrace;
    assert INNER[1..] == "${__COUNTER__}";
    assert Scan(INNER) == Literal('Y', "${__COUNTER__}");
  }

  lemma CountingNames()
    ensures Fold(COUNTER) == "__counter__" && Fold("X") == "x" && Fold(['Y', Digit(0)]) == "y0"
        && Fold(['Y', Digit(1)]) == "y1"
    ensures "__counter__" !in COUNTING.defs && WellFormed(COUNTING) && Unambiguous(COUNTING)
  {
    assert Fold("x") == "x" && Fold("y0") == "y0" && Fold("y1") == "y1";
  }

  /** A define that means something else each time, because of the counter, is refused although plain
      substitution comes to an end. */
  lemma CountedNameIsRefused()
    ensures WellFormed(COUNTING) && Unambiguous(COUNTING)
    ensures Expand(COUNTING, {}, 0, "${X}") == Expanded("${X}", 1, true)
    ensures Substitute(COUNTING, 0, "${X}", 5) == Some(Plain("done", 2))
  {
    hide Scan, Expand, Refer, Substitute, Replace, Fold, WellFormed, Unambiguous;
    CountingNames();
    ScanCounting();
    // the guarded run, from the inside out
    PlainText(COUNTING, {"x", "y0"}, 1, "X");
    PlainSubstitute(COUNTING, 1, "X", 3);
    NamedReference(COUNTING, {"x", "y0"}, 1, "X", 3, "X", 1, "${Y${__COUNTER__}}");
    PlainRest(COUNTING, {"x", "y0"}, 1, "${X}", 3);
    InnerName({"x"}, 0, 4);
    assert {"x"} + {"y0"} == {"x", "y0"} && {} + {"x"} == {"x"};
    NamedReference(COUNTING, {"x"}, 0, INNER, 4, ['Y', Digit(0)], 1, "${X}");
    OnlyReference(COUNTING, {"x"}, 0, "${Y${__COUNTER__}}", 4);
    PlainText(COUNTING, {}, 0, "X");
    PlainSubstitute(COUNTING, 0, "X", 5);
    NamedReference(COUNTING, {}, 0, "X", 5, "X", 0, "${Y${__COUNTER__}}");
    OnlyReference(COUNTING, {}, 0, "${X}", 5);
    SecondRound();
    OnlyReference(COUNTING, {}, 1, "${X}", 3);
  }

  lemma SecondRound()
    ensures Replace(COUNTING, 1, Brace, "X", 3) == Some(Referred(true, "done", 2, false))
  {
    hide Scan, Expand, Refer, Substitute, Replace, Fold, WellFormed, Unambiguous;
    CountingNames();
    ScanCounting();
    PlainSubstitute(COUNTING, 2, "done", 1);
    InnerName({}, 1, 2);
    NamedReference(COUNTING, {}, 1, INNER, 2, ['Y', Digit(1)], 2, "done");
    OnlyReference(COUNTING, {}, 1, "${Y${__COUNTER__}}", 2);
    PlainText(COUNTING, {}, 1, "X");
    PlainSubstitute(COUNTING, 1, "X", 3);
    NamedReference(COUNTING, {}, 1, "X", 3, "X", 1, "${Y${__COUNTER__}}");
  }
}
