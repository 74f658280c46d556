/**
 What expansion makes of the parts of a line, written out: escapes, names in braces and between percent
 signs, the counter and code points.
 */
module LineMeaning {
  import opened Numbers
  import opened Wrappers
  import opened StringLists
  import opened Expansion

  /* ---------- escapes ---------- */

  lemma EscapeFirst(env: Env, hist: set<string>, n: nat, c: char, rest: string)
    requires c == 'r' || c == 'n' || c == 't'
    ensures var e := Expand(env, hist, n, rest);
            Expand(env, hist, n, "$\\" + [c] + rest) ==
              e.(text := [if c == 'r' then '\r' else if c == 'n' then '\n' else '\t'] + e.text)
  {
    hide Refer;
    var s := "$\\" + [c] + rest;
    assert s[0] == '$' && s[1] == '\\' && s[2] == c && s[3..] == rest;
    assert Scan(s) == Literal(if c == 'r' then '\r' else if c == 'n' then '\n' else '\t', rest);
  }

  /** A carriage return, a newline and a tabulator; before any other character the dollar sign and the backslash
      are kept. */
  lemma Escapes(env: Env, hist: set<string>, n: nat, rest: string)
    ensures Expand(env, hist, n, "$\\r" + rest).text == "\r" + Expand(env, hist, n, rest).text
    ensures Expand(env, hist, n, "$\\n" + rest).text == "\n" + Expand(env, hist, n, rest).text
    ensures Expand(env, hist, n, "$\\t" + rest).text == "\t" + Expand(env, hist, n, rest).text
    ensures rest == "" || rest[0] !in "rnt" ==>
              Expand(env, hist, n, "$\\" + rest).text == "$\\" + Expand(env, hist, n, rest).text
  {
    hide Expand;
    EscapeFirst(env, hist, n, 'r', rest);
    EscapeFirst(env, hist, n, 'n', rest);
    EscapeFirst(env, hist, n, 't', rest);
    assert "$\\" + ['r'] + rest == "$\\r" + rest;
    assert "$\\" + ['n'] + rest == "$\\n" + rest;
    assert "$\\" + ['t'] + rest == "$\\t" + rest;
    if rest == "" || rest[0] !in "rnt" {
      NoEscape(env, hist, n, rest);
    }
  }

  lemma NoEscape(env: Env, hist: set<string>, n: nat, rest: string)
    requires rest == "" || rest[0] !in "rnt"
    ensures Expand(env, hist, n, "$\\" + rest).text == "$\\" + Expand(env, hist, n, rest).text
  {
    hide Refer;
    var s := "$\\" + rest;
    assert s[0] == '$' && s[1] == '\\' && s[1..] == ['\\'] + rest && (rest != "" ==> s[2] == rest[0]);
    assert Scan(s) == Literal('$', ['\\'] + rest);
    LiteralFirst(env, hist, n, '\\', rest);
    assert ['$'] + (['\\'] + Expand(env, hist, n, rest).text) == "$\\" + Expand(env, hist, n, rest).text;
  }

  /* ---------- where a name ends ---------- */

  /** Braces opened and not closed in the first `k` characters. */
  function Open(s: string, k: nat): int
    requires k <= |s|
  {
    if k == 0 then 0
    else Open(s, k - 1) + if s[k - 1] == '{' then 1 else if s[k - 1] == '}' then -1 else 0
  }

  lemma {:induction false} CloseFrom(s: string, i: nat, depth: nat)
    requires i <= |s| && Open(s, i) == depth
    requires forall k :: 0 <= k < i && s[k] == '}' ==> Open(s, k) != 0
    ensures var end := CloseBrace(s, i, depth);
            && (end < |s| ==> s[end] == '}' && Open(s, end) == 0)
            && (forall k :: 0 <= k < end && s[k] == '}' ==> Open(s, k) != 0)
    decreases |s| - i
  {
    if i < |s| && !(s[i] == '}' && depth == 0) {
      CloseFrom(s, i + 1, if s[i] == '{' then depth + 1 else if s[i] == '}' then depth - 1 else depth);
    }
  }

  /** A name ends at the first closing brace that closes none of the braces opened in it. */
  lemma BraceCloses(s: string)
    ensures var end := CloseBrace(s, 0, 0);
            && (end < |s| ==> s[end] == '}' && Open(s, end) == 0)
            && (forall k :: 0 <= k < end && s[k] == '}' ==> Open(s, k) != 0)
  {
    CloseFrom(s, 0, 0);
  }

  lemma {:induction false} PercentFrom(s: string, i: nat)
    requires i <= |s|
    ensures forall k :: i <= k < ClosePercent(s, i) ==> s[k] != '%'
    decreases |s| - i
  {
    if i < |s| && s[i] != '%' {
      PercentFrom(s, i + 1);
    }
  }

  /** The name of an environment variable ends at the first percent sign. */
  lemma PercentCloses(s: string)
    ensures var end := ClosePercent(s, 0); '%' !in s[..end] && (end < |s| ==> s[end] == '%')
  {
    PercentFrom(s, 0);
  }

  /* ---------- references by name ---------- */

  /** A name with nothing to expand in it. */
  predicate Bare(name: string) {
    name != "" && '$' !in name && '%' !in name && '{' !in name && '}' !in name
  }

  lemma {:induction false} CloseBare(name: string, rest: string, i: nat)
    requires Bare(name) && i <= |name|
    ensures CloseBrace(name + "}" + rest, i, 0) == |name|
    ensures ClosePercent(name + "%" + rest, i) == |name|
    decreases |name| - i
  {
    var s, t := name + "}" + rest, name + "%" + rest;
    assert s[|name|] == '}' && t[|name|] == '%';
    if i < |name| {
      assert s[i] == t[i] == name[i] && name[i] in name;
      CloseBare(name, rest, i + 1);
    }
  }

  lemma Parts(open: string, name: string, close: string, rest: string)
    requires |open| == 2 && |close| == 1
    ensures var s, t := open + name + close + rest, name + close + rest;
            && s[0..] == s && s[2..] == t && s[1..] == [open[1]] + name + close + rest
            && t[..|name|] == name && s[|name| + 3..] == rest
            && s[0] == open[0] && s[1] == open[1] && t[|name|] == close[0]
  {
  }

  lemma ScanBrace(name: string, rest: string)
    requires Bare(name)
    ensures Scan("${" + name + "}" + rest) == Reference(Brace, name, rest, "{" + name + "}" + rest)
  {
    hide Scan, CloseBrace, ClosePercent, Bare;
    var s, t := "${" + name + "}" + rest, name + "}" + rest;
    Parts("${", name, "}", rest);
    ScanAt(s, 0);
    CloseBare(name, rest, 0);
    NotEmpty(name);
  }

  lemma ScanPercent(name: string, rest: string)
    requires Bare(name)
    ensures Scan("$%" + name + "%" + rest) == Reference(Percent, name, rest, "%" + name + "%" + rest)
  {
    hide Scan, CloseBrace, ClosePercent, Bare;
    var s, t := "$%" + name + "%" + rest, name + "%" + rest;
    Parts("$%", name, "%", rest);
    ScanAt(s, 0);
    CloseBare(name, rest, 0);
    NotEmpty(name);
  }

  lemma NotEmpty(name: string)
    requires Bare(name)
    ensures name != ""
  {
  }

  /** A text that has nothing to expand: no dollar sign, or nothing else. */
  predicate Settled(text: string) {
    '$' !in text || text == "$"
  }

  /** How a line goes on after a reference in front of it. */
  lemma ReferenceStep(env: Env, hist: set<string>, n: nat, s: string)
    requires Scan(s).Reference?
    ensures var p := Scan(s);
            var r := Refer(env, hist, n, p.kind, p.raw);
            var e := Expand(env, hist, r.count, if r.done then p.after else p.kept);
            Expand(env, hist, n, s).text == (if r.done then r.text else "$") + e.text
            && Expand(env, hist, n, s).count == e.count
  {
    hide Scan, Refer;
  }

  /** A reference in front of a line that is found, with a value that has nothing to expand. */
  lemma FoundFirst(env: Env, hist: set<string>, n: nat, kind: Kind, name: string, s: string)
    requires Bare(name) && Ticks(env, kind, name, name) == 0 && Fold(name) !in hist
    requires Scan(s).Reference? && Scan(s).kind == kind && Scan(s).raw == name
    requires Found(env, kind, name, name, n).Some? && Settled(Found(env, kind, name, name, n).value)
    ensures Expand(env, hist, n, s).text ==
              Found(env, kind, name, name, n).value + Expand(env, hist, n, Scan(s).after).text
  {
    hide Scan, Refer, Found, Fold, Expand;
    ReferenceStep(env, hist, n, s);
    NameRefers(env, hist, n, kind, name);
  }

  /** One that is not found stays. */
  lemma UnknownFirst(env: Env, hist: set<string>, n: nat, kind: Kind, name: string, s: string, front: string,
                     rest: string)
    requires Bare(name) && Ticks(env, kind, name, name) == 0 && Fold(name) !in hist
    requires Scan(s).Reference? && Scan(s).kind == kind && Scan(s).raw == name && Scan(s).kept == front + rest
    requires Found(env, kind, name, name, n).None? && '$' !in front
    ensures Expand(env, hist, n, s).text == "$" + front + Expand(env, hist, n, rest).text
  {
    hide Scan, Refer, Found, Fold, Expand;
    ReferenceStep(env, hist, n, s);
    NameRefers(env, hist, n, kind, name);
    PlainPrefix(env, hist, n, front, rest);
    var more := Expand(env, hist, n, rest).text;
    assert "$" + (front + more) == "$" + front + more;
  }

  lemma NameRefers(env: Env, hist: set<string>, n: nat, kind: Kind, name: string)
    requires '$' !in name && Ticks(env, kind, name, name) == 0 && Fold(name) !in hist
    ensures var r, t := Refer(env, hist, n, kind, name), Found(env, kind, name, name, n);
            && (t.None? ==> !r.done && r.count == n)
            && (t.Some? && Settled(t.value) ==> r.done && r.text == t.value && r.count == n)
  {
    hide Expand, Found, Fold, Ticks;
    PlainText(env, hist, n, name);
    var t := Found(env, kind, name, name, n);
    if t.Some? && Settled(t.value) {
      if '$' !in t.value {
        PlainText(env, hist + {Fold(name)}, n, t.value);
      } else {
        OneCharacter(env, hist + {Fold(name)}, n, t.value[0], 0);
      }
    }
  }

  /** `${NAME}` gives the define of that name in any case, before anything else of that name, and `$%NAME%` the
      environment variable of exactly that name; without one the text stays as it is. Values without a dollar sign
      are taken as they are. */
  lemma NamesExpand(env: Env, hist: set<string>, n: nat, name: string, rest: string)
    requires Bare(name) && Fold(name) !in hist
    ensures var more := Expand(env, hist, n, rest).text;
            && (Fold(name) in env.defs && '$' !in env.defs[Fold(name)] ==>
                  Expand(env, hist, n, "${" + name + "}" + rest).text == env.defs[Fold(name)] + more)
            && (Fold(name) !in env.defs && name != "__COUNTER__" && !("U+" <= name) ==>
                  Expand(env, hist, n, "${" + name + "}" + rest).text == "${" + name + "}" + more)
            && (name in env.vars && '$' !in env.vars[name] ==>
                  Expand(env, hist, n, "$%" + name + "%" + rest).text == env.vars[name] + more)
            && (name !in env.vars ==>
                  Expand(env, hist, n, "$%" + name + "%" + rest).text == "$%" + name + "%" + more)
  {
    hide Expand, Fold, Scan, Bare;
    var s, u := "${" + name + "}" + rest, "$%" + name + "%" + rest;
    ScanBrace(name, rest);
    ScanPercent(name, rest);
    BareFronts(name);
    if Fold(name) !in env.defs && name != "__COUNTER__" && !("U+" <= name) {
      UnknownFirst(env, hist, n, Brace, name, s, "{" + name + "}", rest);
      assert "$" + ("{" + name + "}") == "${" + name + "}";
    } else if Fold(name) in env.defs && '$' !in env.defs[Fold(name)] {
      FoundFirst(env, hist, n, Brace, name, s);
    }
    if name !in env.vars {
      UnknownFirst(env, hist, n, Percent, name, u, "%" + name + "%", rest);
      assert "$" + ("%" + name + "%") == "$%" + name + "%";
    } else if '$' !in env.vars[name] {
      FoundFirst(env, hist, n, Percent, name, u);
    }
  }

  lemma BareFronts(name: string)
    requires Bare(name)
    ensures '$' !in "{" + name + "}" && '$' !in "%" + name + "%"
  {
  }

  /* ---------- the counter ---------- */

  /** Decimal digits without leading zeros that stand for the number. */
  lemma {:induction false} DecimalReads(n: nat)
    ensures var s := Decimal(n); s != "" && AllDigits(s) && DecimalValue(s) == n && (s[0] == '0' ==> s == "0")
  {
    if n >= 10 {
      DecimalReads(n / 10);
      var s, front := Decimal(n), Decimal(n / 10);
      assert s[..|s| - 1] == front && s[0] == front[0];
      assert DecimalValue("0") == 0 by {
        assert "0"[..0] == "";
      }
    } else {
      assert Decimal(n)[..0] == "";
    }
  }

  /** The counter gives how often it was used before, and counts. */
  lemma CounterExpands(env: Env, hist: set<string>, n: nat, rest: string)
    requires Fold(COUNTER) !in env.defs && Fold(COUNTER) !in hist && n < 0x1_0000_0000
    ensures var e := Expand(env, hist, n, "${__COUNTER__}" + rest);
            var after := Expand(env, hist, n + 1, rest);
            && |e.text| >= |after.text| && e.text[|e.text| - |after.text|..] == after.text && e.count == after.count
            && var digits := e.text[..|e.text| - |after.text|];
               digits != "" && AllDigits(digits) && DecimalValue(digits) == n
  {
    hide Scan, Refer, Fold, Decimal, Expand;
    assert "${__COUNTER__}" + rest == "${" + COUNTER + "}" + rest;
    ScanBrace(COUNTER, rest);
    ReferenceStep(env, hist, n, "${__COUNTER__}" + rest);
    DecimalReads(n);
    CounterRefers(env, hist, n);
    var e, after := Expand(env, hist, n, "${__COUNTER__}" + rest), Expand(env, hist, n + 1, rest);
    assert e.text == Decimal(n) + after.text;
  }

  lemma CounterRefers(env: Env, hist: set<string>, n: nat)
    requires Fold(COUNTER) !in env.defs && Fold(COUNTER) !in hist && n < 0x1_0000_0000
    ensures var r := Refer(env, hist, n, Brace, COUNTER); r.done && r.text == Decimal(n) && r.count == n + 1
  {
    hide Expand, Fold, Decimal;
    PlainText(env, hist, n, COUNTER);
    DecimalReads(n);
    NoDollar(Decimal(n));
    PlainText(env, hist + {Fold(COUNTER)}, n + 1, Decimal(n));
  }

  lemma NoDollar(s: string)
    requires AllDigits(s)
    ensures '$' !in s
  {
  }

  /* ---------- code points ---------- */

  /** The sixteen digits in both cases. */
  lemma HexDigitReads(d: nat)
    requires d < 16
    ensures IsHex("0123456789abcdef"[d]) && HexDigit("0123456789abcdef"[d]) == d
    ensures IsHex("0123456789ABCDEF"[d]) && HexDigit("0123456789ABCDEF"[d]) == d
  {
  }

  lemma HexValueAppends(s: string, c: char)
    requires (forall x :: x in s ==> IsHex(x)) && IsHex(c)
    ensures forall x :: x in s + [c] ==> IsHex(x)
    ensures HexValue(s + [c]) == 16 * HexValue(s) + HexDigit(c) && HexValue("") == 0
  {
    assert (s + [c])[..|s|] == s;
  }

  /** `${U+...}` with hexadecimal digits, not starting with `0x`: the character of that number, a replacement for
      a number that is no character, and no reference for zero or for anything but digits. */
  lemma CodePointReads(digits: string)
    requires |digits| > 2 ==> digits[1] != 'x' && digits[1] != 'X'
    ensures var t := CodePoint("U+" + digits);
            if digits == "" || exists c :: c in digits && !IsHex(c) then t == None
            else
              var v := HexValue(digits);
              && (v == 0 <==> t == None)
              && (0 < v < 0xD800 || 0xE000 <= v <= 0x10FFFF ==> t.Some? && t.value as int == v)
              && (0xD800 <= v < 0xE000 || v > 0x10FFFF ==> t.Some? && t.value as int == 0xFFFD)
  {
    var raw := "U+" + digits;
    assert raw[2..] == digits && "U+" <= raw;
    if |raw| > 4 {
      assert raw[3] == digits[1];
    }
  }

  /** Such a reference in a line, unless a define has that name. */
  lemma CodePointExpands(env: Env, hist: set<string>, n: nat, digits: string, rest: string)
    requires Bare("U+" + digits) && Fold("U+" + digits) !in env.defs && Fold("U+" + digits) !in hist
    ensures var t := CodePoint("U+" + digits);
            Expand(env, hist, n, "${U+" + digits + "}" + rest).text ==
              (if t.Some? then [t.value] else "${U+" + digits + "}") + Expand(env, hist, n, rest).text
  {
    hide Expand, Fold, Scan, Bare, CodePoint;
    var name := "U+" + digits;
    var s := "${" + name + "}" + rest;
    assert s == "${U+" + digits + "}" + rest && name[0] == 'U' && name != COUNTER;
    ScanBrace(name, rest);
    BareFronts(name);
    if CodePoint(name).None? {
      UnknownFirst(env, hist, n, Brace, name, s, "{" + name + "}", rest);
      assert "$" + ("{" + name + "}") == "${U+" + digits + "}";
    } else {
      FoundFirst(env, hist, n, Brace, name, s);
    }
  }
}
