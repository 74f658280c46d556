/**
 The wildcard matcher for file names, which remembers one position to go back to, against
 what the wildcards mean.
 */
module Wildcards {
  import opened StringLists

  predicate SameChar(a: char, b: char) {
    FoldChar(a) == FoldChar(b)
  }

  /** What a spec means: `?` is one character, `*` any characters. */
  predicate Glob(name: string, spec: string)
    decreases |spec|, |name|
  {
    if spec == "" then name == ""
    else
      var last := spec[|spec| - 1];
      if last == '*' then Glob(name, spec[..|spec| - 1]) || (name != "" && Glob(name[..|name| - 1], spec))
      else
        && name != "" && (last == '?' || SameChar(name[|name| - 1], last))
        && Glob(name[..|name| - 1], spec[..|spec| - 1])
  }

  predicate Redundant(c: char) {
    c == '.' || c == '*'
  }

  /** A match up to dots and asterisks at the end of the spec. */
  predicate LooselyGlob(name: string, spec: string) {
    exists e :: 0 <= e <= |spec| && Glob(name, spec[..e]) && forall i :: e <= i < |spec| ==> Redundant(spec[i])
  }

  /** The first position from `s` on that holds no asterisk. */
  function SkipStars(spec: string, s: nat): (j: nat)
    requires s <= |spec|
    ensures s <= j <= |spec| && (j < |spec| ==> spec[j] != '*')
    ensures forall i :: s <= i < j ==> spec[i] == '*'
    decreases |spec| - s
  {
    if s < |spec| && spec[s] == '*' then SkipStars(spec, s + 1) else s
  }

  function SkipRedundant(spec: string, s: nat): (j: nat)
    requires s <= |spec|
    ensures s <= j <= |spec| && (j < |spec| ==> !Redundant(spec[j]))
    ensures forall i :: s <= i < j ==> Redundant(spec[i])
    decreases |spec| - s
  {
    if s < |spec| && Redundant(spec[s]) then SkipRedundant(spec, s + 1) else s
  }

  /** The matcher's place: in the name, in the spec, behind the last asterisk (or -1), and the last good
      position in the name. */
  datatype Place = Place(n: nat, s: nat, star: int, good: nat)

  predicate Good(name: string, spec: string, p: Place) {
    && p.n <= |name| && p.s <= |spec|
    && (p.star == -1 || (0 < p.star <= p.s && p.star < |spec| && spec[p.star - 1] == '*' && p.good <= p.n))
  }

  /** Why the matcher stops: the asterisk, the last good position and the position in the name only go forward,
      the earlier ones counting more. */
  function StarLeft(spec: string, p: Place): int {
    if p.star == -1 then |spec| + 1 else |spec| - p.star
  }

  function GoodLeft(name: string, p: Place): int {
    if p.star == -1 then 0 else |name| - p.good
  }

  /** The rest of the matcher's run. */
  predicate Run(name: string, spec: string, p: Place)
    requires Good(name, spec, p)
    decreases StarLeft(spec, p), GoodLeft(name, p), |name| - p.n
  {
    if p.n == |name| || p.s == |spec| then p.n == |name| && SkipRedundant(spec, p.s) == |spec|
    else if spec[p.s] == '?' then Run(name, spec, p.(n := p.n + 1, s := p.s + 1))
    else if spec[p.s] == '*' then
      var j := SkipStars(spec, p.s);
      j == |spec| || Run(name, spec, Place(p.n, j, j, p.n))
    else if !SameChar(name[p.n], spec[p.s]) then
      p.star != -1 && Run(name, spec, Place(p.good + 1, p.star, p.star, p.good + 1))
    else
      var next := Place(p.n + 1, p.s + 1, p.star, p.n);
      if next.s == |spec| && next.n != |name| && p.star != -1 then Run(name, spec, next.(s := p.star))
      else Run(name, spec, next)
  }

  const START := Place(0, 0, -1, 0)

  /** One round of the matcher. */
  lemma RunStep(name: string, spec: string, p: Place)
    requires Good(name, spec, p) && p.n != |name| && p.s != |spec|
    ensures spec[p.s] == '?' ==> Run(name, spec, p) == Run(name, spec, p.(n := p.n + 1, s := p.s + 1))
    ensures spec[p.s] == '*' ==>
              var j := SkipStars(spec, p.s);
              Run(name, spec, p) == (j == |spec| || Run(name, spec, Place(p.n, j, j, p.n)))
    ensures spec[p.s] !in "?*" && !SameChar(name[p.n], spec[p.s]) ==>
              Run(name, spec, p) == (p.star != -1 && Run(name, spec, Place(p.good + 1, p.star, p.star, p.good + 1)))
    ensures spec[p.s] !in "?*" && SameChar(name[p.n], spec[p.s]) ==>
              var next := Place(p.n + 1, p.s + 1, p.star, p.n);
              var again := next.s == |spec| && next.n != |name| && p.star != -1;
              Run(name, spec, p) == Run(name, spec, if again then next.(s := p.star) else next)
  {
  }

  lemma RunEnd(name: string, spec: string, p: Place)
    requires Good(name, spec, p) && (p.n == |name| || p.s == |spec|)
    ensures Run(name, spec, p) <==> p.n == |name| && SkipRedundant(spec, p.s) == |spec|
  {
  }

  method Matches(name: string, spec: string) returns (r: bool)
    ensures r == Run(name, spec, START)
    ensures r ==> LooselyGlob(name, spec)
    ensures '*' !in spec ==> (r <==> LooselyGlob(name, spec))
    ensures spec != "" && spec[0] == '*' && PlainEnding(spec[1..]) ==> (r <==> EndsIn(name, spec[1..]))
  {
    hide Run, LooselyGlob, PlainEnding, EndsIn, SameChar;
    RunMeans(name, spec);
    var n, s, star, good := 0, 0, -1, 0;
    while n != |name| && s != |spec|
      invariant Good(name, spec, Place(n, s, star, good))
      invariant Run(name, spec, START) == Run(name, spec, Place(n, s, star, good))
      decreases StarLeft(spec, Place(n, s, star, good)), GoodLeft(name, Place(n, s, star, good)), |name| - n
    {
      RunStep(name, spec, Place(n, s, star, good));
      if spec[s] == '?' {
        n := n + 1;
        s := s + 1;
      } else if spec[s] == '*' {
        ghost var first := s;
        while spec[s] == '*'
          invariant s < |spec| && SkipStars(spec, s) == SkipStars(spec, first) && (s == first ==> spec[s] == '*')
          invariant s > first ==> spec[s - 1] == '*'
          invariant first <= s
          decreases |spec| - s
        {
          s := s + 1;
          if s == |spec| {
            return true;
          }
        }
        star := s;
        good := n;
      } else if !SameChar(name[n], spec[s]) {
        if star == -1 {
          return false;
        }
        s := star;
        good := good + 1;
        n := good;
      } else {
        good := n;
        s := s + 1;
        n := n + 1;
        if s == |spec| && n != |name| && star != -1 {
          s := star;
        }
      }
    }
    RunEnd(name, spec, Place(n, s, star, good));
    ghost var stop := s;
    while s != |spec| && Redundant(spec[s])
      invariant stop <= s <= |spec| && SkipRedundant(spec, s) == SkipRedundant(spec, stop)
    {
      s := s + 1;
    }
    r := n == |name| && s == |spec|;
  }

  /** What the run says of name and spec. */
  lemma RunMeans(name: string, spec: string)
    ensures Run(name, spec, START) ==> LooselyGlob(name, spec)
    ensures '*' !in spec ==> (Run(name, spec, START) <==> LooselyGlob(name, spec))
    ensures spec != "" && spec[0] == '*' && PlainEnding(spec[1..]) ==>
              (Run(name, spec, START) <==> EndsIn(name, spec[1..]))
  {
    hide LooselyGlob, PlainEnding, EndsIn, Run;
    if Run(name, spec, START) {
      MatchesIsSound(name, spec);
    }
    if '*' !in spec {
      NoStarIsExact(name, spec);
    }
    if spec != "" && spec[0] == '*' && PlainEnding(spec[1..]) {
      assert "*" + spec[1..] == spec;
      StarEndingIsExact(name, spec[1..]);
    }
  }

  /* ---------- a match is a match ---------- */

  lemma {:induction false} StarAbsorbs(name: string, a: nat, b: nat, spec: string)
    requires spec != "" && spec[|spec| - 1] == '*' && a <= b <= |name| && Glob(name[..a], spec)
    ensures Glob(name[..b], spec)
    decreases b
  {
    if a < b {
      StarAbsorbs(name, a, b - 1, spec);
      assert name[..b][..b - 1] == name[..b - 1];
    }
  }

  lemma GlobStar(name: string, n: nat, spec: string, s: nat)
    requires n <= |name| && s < |spec| && spec[s] == '*' && Glob(name[..n], spec[..s])
    ensures Glob(name[..n], spec[..s + 1])
  {
    assert spec[..s + 1][..s] == spec[..s];
  }

  lemma {:induction false} GlobStars(name: string, n: nat, spec: string, s: nat, j: nat)
    requires n <= |name| && s <= j <= |spec| && Glob(name[..n], spec[..s])
    requires forall i :: s <= i < j ==> spec[i] == '*'
    ensures Glob(name[..n], spec[..j])
    decreases j
  {
    if s < j {
      GlobStars(name, n, spec, s, j - 1);
      GlobStar(name, n, spec, j - 1);
    }
  }

  lemma GlobChar(name: string, n: nat, spec: string, s: nat)
    requires n < |name| && s < |spec| && spec[s] != '*' && Glob(name[..n], spec[..s])
    requires spec[s] == '?' || SameChar(name[n], spec[s])
    ensures Glob(name[..n + 1], spec[..s + 1])
  {
    assert spec[..s + 1][..s] == spec[..s] && name[..n + 1][..n] == name[..n];
  }

  /** What was consumed of the name matches what was consumed of the spec. */
  predicate Justified(name: string, spec: string, p: Place)
    requires Good(name, spec, p)
  {
    Glob(name[..p.n], spec[..p.s]) && (p.star != -1 ==> Glob(name[..p.good], spec[..p.star]))
  }

  lemma {:induction false} RunIsSound(name: string, spec: string, p: Place)
    requires Good(name, spec, p) && Run(name, spec, p) && Justified(name, spec, p)
    ensures LooselyGlob(name, spec)
    decreases StarLeft(spec, p), GoodLeft(name, p), |name| - p.n
  {
    hide Glob;
    if p.n == |name| || p.s == |spec| {
      assert name[..|name|] == name;
    } else if spec[p.s] == '?' {
      GlobChar(name, p.n, spec, p.s);
      RunIsSound(name, spec, p.(n := p.n + 1, s := p.s + 1));
    } else if spec[p.s] == '*' {
      var j := SkipStars(spec, p.s);
      GlobStars(name, p.n, spec, p.s, j);
      if j == |spec| {
        assert spec[..j] == spec && name[..|name|] == name;
        StarAbsorbs(name, p.n, |name|, spec);
      } else {
        RunIsSound(name, spec, Place(p.n, j, j, p.n));
      }
    } else if !SameChar(name[p.n], spec[p.s]) {
      StarAbsorbs(name, p.good, p.good + 1, spec[..p.star]);
      RunIsSound(name, spec, Place(p.good + 1, p.star, p.star, p.good + 1));
    } else {
      var next := Place(p.n + 1, p.s + 1, p.star, p.n);
      GlobChar(name, p.n, spec, p.s);
      if p.star != -1 {
        StarAbsorbs(name, p.good, p.n, spec[..p.star]);
        StarAbsorbs(name, p.n, p.n + 1, spec[..p.star]);
      }
      if next.s == |spec| && next.n != |name| && p.star != -1 {
        RunIsSound(name, spec, next.(s := p.star));
      } else {
        RunIsSound(name, spec, next);
      }
    }
  }

  /** What the matcher accepts is a match, up to dots and asterisks at the end of the spec. */
  lemma MatchesIsSound(name: string, spec: string)
    requires Run(name, spec, START)
    ensures LooselyGlob(name, spec)
  {
    assert name[..0] == "" && spec[..0] == "";
    RunIsSound(name, spec, START);
  }

  /* ---------- specs without asterisks ---------- */

  /** Without an asterisk the matcher is exact. */
  lemma {:induction false} NoStarRun(name: string, spec: string, p: Place)
    requires '*' !in spec && Good(name, spec, p) && p.star == -1 && p.n == p.s
    requires Glob(name[..p.n], spec[..p.s]) && LooselyGlob(name, spec)
    ensures Run(name, spec, p)
    decreases |name| - p.n
  {
    hide Glob;
    var e :| 0 <= e <= |spec| && Glob(name, spec[..e]) && forall i :: e <= i < |spec| ==> Redundant(spec[i]);
    NoStarLength(name, spec[..e]);
    if p.n == |name| {
      SkipsAll(spec, p.s);
    } else {
      NoStarAt(name, spec[..e], p.n);
      GlobChar(name, p.n, spec, p.s);
      NoStarRun(name, spec, Place(p.n + 1, p.s + 1, -1, if spec[p.s] == '?' then p.good else p.n));
    }
  }

  lemma {:induction false} SkipsAll(spec: string, s: nat)
    requires s <= |spec| && forall i :: s <= i < |spec| ==> Redundant(spec[i])
    ensures SkipRedundant(spec, s) == |spec|
    decreases |spec| - s
  {
    if s < |spec| {
      SkipsAll(spec, s + 1);
    }
  }

  lemma {:induction false} NoStarLength(name: string, spec: string)
    requires '*' !in spec && Glob(name, spec)
    ensures |name| == |spec|
    decreases |spec|
  {
    if spec != "" {
      NoStarLength(name[..|name| - 1], spec[..|spec| - 1]);
    }
  }

  lemma {:induction false} NoStarAt(name: string, spec: string, i: nat)
    requires '*' !in spec && Glob(name, spec) && i < |name| == |spec|
    ensures spec[i] == '?' || SameChar(name[i], spec[i])
    decreases |spec|
  {
    if i < |spec| - 1 {
      NoStarAt(name[..|name| - 1], spec[..|spec| - 1], i);
    }
  }

  lemma NoStarIsExact(name: string, spec: string)
    requires '*' !in spec
    ensures Run(name, spec, START) <==> LooselyGlob(name, spec)
  {
    if Run(name, spec, START) {
      MatchesIsSound(name, spec);
    }
    if LooselyGlob(name, spec) {
      assert name[..0] == "" && spec[..0] == "";
      NoStarRun(name, spec, START);
    }
  }

  /* ---------- an asterisk and an ending ---------- */

  predicate EndsIn(name: string, ending: string) {
    && |ending| <= |name|
    && forall i :: 0 <= i < |ending| ==> SameChar(name[|name| - |ending| + i], ending[i])
  }

  /** An ending without wildcards or a dot at its end. */
  predicate Ordinary(ending: string) {
    ending != "" && '*' !in ending && '?' !in ending && ending[|ending| - 1] != '.'
  }

  /** Its first character does not come again in it. */
  predicate FirstIsUnique(ending: string) {
    forall i :: 1 <= i < |ending| ==> !SameChar(ending[i], ending[0])
  }

  predicate PlainEnding(ending: string) {
    Ordinary(ending) && FirstIsUnique(ending)
  }

  lemma {:induction false} GlobOfEnding(name: string, ending: string)
    requires '*' !in ending && '?' !in ending && Glob(name, "*" + ending)
    ensures EndsIn(name, ending)
    decreases |ending|
  {
    var k := |ending| - 1;
    if k >= 0 {
      assert ("*" + ending)[..k + 1] == "*" + ending[..k];
      assert ("*" + ending)[k + 1] == ending[k];
      GlobOfEnding(name[..|name| - 1], ending[..k]);
    }
  }

  /** Where the ending begins in the name. */
  function EndingAt(name: string, ending: string): nat
    requires |ending| <= |name|
  {
    |name| - |ending|
  }

  /** The attempt that is going on began no later than the ending. */
  predicate OnTheWay(name: string, ending: string, p: Place) {
    var m := p.s - 1;
    && p.star == 1 && 1 <= p.s <= |ending| + 1 && m <= p.n <= |name| && |ending| <= |name|
    && p.n - m <= EndingAt(name, ending) && p.good <= p.n
    && (forall i :: 0 <= i < m ==> SameChar(name[p.n - m + i], ending[i]))
    && (if m > 0 then p.good == p.n - 1 else p.n - 1 <= p.good)
    && (m == |ending| ==> p.n == |name|)
  }

  /** An attempt that began before the ending has not reached it, since the first character does not come again. */
  lemma NotYet(name: string, ending: string, b: nat, m: nat)
    requires PlainEnding(ending) && EndsIn(name, ending) && m <= |ending|
    requires b < EndingAt(name, ending) && b + m <= |name|
    requires forall i :: 0 <= i < m ==> SameChar(name[b + i], ending[i])
    ensures b + m <= EndingAt(name, ending)
  {
    var at := EndingAt(name, ending);
    if b + m > at {
      NotInside(name, ending, b, m, at - b);
    }
  }

  lemma NotInside(name: string, ending: string, b: nat, m: nat, i: nat)
    requires PlainEnding(ending) && EndsIn(name, ending) && 1 <= i < m <= |ending| && b + m <= |name|
    requires forall i :: 0 <= i < m ==> SameChar(name[b + i], ending[i])
    ensures b + i != EndingAt(name, ending)
  {
    assert SameChar(name[b + i], ending[i]);
    assert SameChar(name[EndingAt(name, ending) + 0], ending[0]);
  }

  lemma {:induction false} EndingRun(name: string, ending: string, p: Place)
    requires PlainEnding(ending) && EndsIn(name, ending) && OnTheWay(name, ending, p)
    ensures Good(name, "*" + ending, p) && Run(name, "*" + ending, p)
    decreases |name| - p.good, |name| - p.n
  {
    var spec, m, at := "*" + ending, p.s - 1, EndingAt(name, ending);
    var b := p.n - m;
    if p.n < |name| {
      assert spec[p.s] == ending[m];
      assert ending[m] in ending;
      if b < at {
        NotYet(name, ending, b, m);
      } else {
        assert SameChar(name[at + m], ending[m]);
      }
      if !SameChar(name[p.n], ending[m]) {
        EndingRun(name, ending, Place(p.good + 1, 1, 1, p.good + 1));
      } else {
        if b < at {
          NotYet(name, ending, b, m + 1);
        }
        var next := Place(p.n + 1, p.s + 1, 1, p.n);
        EndingRun(name, ending, if next.s == |spec| && next.n != |name| then next.(s := 1) else next);
      }
    }
  }

  lemma AcceptedEndsIn(name: string, ending: string)
    requires Ordinary(ending) && Run(name, "*" + ending, START)
    ensures EndsIn(name, ending)
  {
    var spec := "*" + ending;
    MatchesIsSound(name, spec);
    var e :| 0 <= e <= |spec| && Glob(name, spec[..e]) && forall i :: e <= i < |spec| ==> Redundant(spec[i]);
    assert ending[|ending| - 1] in ending;
    assert !Redundant(spec[|spec| - 1]);
    assert e == |spec|;
    assert spec[..e] == spec;
    GlobOfEnding(name, ending);
  }

  /** For an asterisk and such an ending the matcher is exact: it accepts the names with that ending. */
  lemma StarEndingIsExact(name: string, ending: string)
    requires PlainEnding(ending)
    ensures Run(name, "*" + ending, START) <==> EndsIn(name, ending)
  {
    if Run(name, "*" + ending, START) {
      AcceptedEndsIn(name, ending);
    }
    if EndsIn(name, ending) {
      AfterTheStar(name, ending);
      EndingRun(name, ending, Place(0, 1, 1, 0));
    }
  }

  lemma AfterTheStar(name: string, ending: string)
    requires Ordinary(ending) && name != ""
    ensures Good(name, "*" + ending, Place(0, 1, 1, 0))
    ensures Run(name, "*" + ending, START) == Run(name, "*" + ending, Place(0, 1, 1, 0))
  {
    var spec := "*" + ending;
    assert ending[0] in ending && spec[1] == ending[0];
    assert SkipStars(spec, 1) == 1 && SkipStars(spec, 0) == 1;
  }

  /** An attempt for which too little of the name is left. */
  predicate TooLate(name: string, ending: string, p: Place) {
    var m := p.s - 1;
    && p.star == 1 && 0 <= m <= p.n <= |name| && p.good <= p.n
    && (if m > 0 then p.good == p.n - 1 else p.n - 1 <= p.good)
    && |name| - p.n < |ending| - m
  }

  lemma {:induction false} TooLateFails(name: string, ending: string, p: Place)
    requires Ordinary(ending) && TooLate(name, ending, p)
    ensures Good(name, "*" + ending, p) && !Run(name, "*" + ending, p)
    decreases |name| - p.good, |name| - p.n
  {
    var spec, m := "*" + ending, p.s - 1;
    assert !Redundant(spec[|spec| - 1]) by {
      assert ending[|ending| - 1] in ending;
    }
    if p.n < |name| {
      assert spec[p.s] == ending[m] && ending[m] in ending;
      if !SameChar(name[p.n], ending[m]) {
        TooLateFails(name, ending, Place(p.good + 1, 1, 1, p.good + 1));
      } else {
        TooLateFails(name, ending, Place(p.n + 1, p.s + 1, 1, p.n));
      }
    }
  }

  /** The name that hides the ending behind its own beginning, up to a place where the first character
      comes again. */
  function Decoy(ending: string, i: nat): string
    requires i < |ending|
  {
    ending[..i] + ending
  }

  /** The first attempt on such a name runs past the place where the ending begins. */
  lemma {:induction false} DecoyRun(ending: string, i: nat, k: nat)
    requires Ordinary(ending) && 1 <= i < |ending| && SameChar(ending[i], ending[0]) && k < |ending|
    ensures var p := Place(k, k + 1, 1, if k > 0 then k - 1 else 0);
            Good(Decoy(ending, i), "*" + ending, p) && !Run(Decoy(ending, i), "*" + ending, p)
    decreases |ending| - k
  {
    var name, spec, good: nat := Decoy(ending, i), "*" + ending, if k > 0 then k - 1 else 0;
    assert spec[k + 1] == ending[k] && ending[k] in ending;
    assert name[k] == if k < i then ending[k] else ending[k - i];
    if !SameChar(name[k], ending[k]) {
      TooLateFails(name, ending, Place(good + 1, 1, 1, good + 1));
    } else if k + 1 == |ending| {
      TooLateFails(name, ending, Place(k + 1, 1, 1, k));
    } else {
      DecoyRun(ending, i, k + 1);
    }
  }

  lemma DecoyEndsIn(ending: string, i: nat)
    requires i < |ending|
    ensures EndsIn(Decoy(ending, i), ending)
  {
    var name := Decoy(ending, i);
    forall k | 0 <= k < |ending|
      ensures SameChar(name[|name| - |ending| + k], ending[k])
    {
      assert name[i + k] == ending[k];
    }
  }

  /** After an asterisk, the endings for which the matcher accepts every name that has them are exactly those
      whose first character does not come again; what it accepts always has the ending. */
  lemma ExactEndings(ending: string)
    requires Ordinary(ending)
    ensures forall name :: Run(name, "*" + ending, START) ==> EndsIn(name, ending)
    ensures (forall name :: EndsIn(name, ending) ==> Run(name, "*" + ending, START)) <==> FirstIsUnique(ending)
  {
    hide Run, EndsIn, Ordinary;
    forall name | Run(name, "*" + ending, START)
      ensures EndsIn(name, ending)
    {
      AcceptedEndsIn(name, ending);
    }
    if FirstIsUnique(ending) {
      forall name | EndsIn(name, ending)
        ensures Run(name, "*" + ending, START)
      {
        StarEndingIsExact(name, ending);
      }
    } else {
      var i :| 1 <= i < |ending| && SameChar(ending[i], ending[0]);
      DecoyIsRefused(ending, i);
    }
  }

  lemma NonEmpty(ending: string, i: nat)
    requires i < |ending|
    ensures Decoy(ending, i) != ""
  {
  }

  lemma DecoyIsRefused(ending: string, i: nat)
    requires Ordinary(ending) && 1 <= i < |ending| && SameChar(ending[i], ending[0])
    ensures EndsIn(Decoy(ending, i), ending) && !Run(Decoy(ending, i), "*" + ending, START)
  {
    hide Run, EndsIn, Ordinary, Decoy, SameChar;
    DecoyEndsIn(ending, i);
    NonEmpty(ending, i);
    AfterTheStar(Decoy(ending, i), ending);
    DecoyRun(ending, i, 0);
  }

  /** In general the matcher misses matches. */
  lemma MatcherIsIncomplete()
    ensures Glob("aaab", "*aab") && !Run("aaab", "*aab", START)
  {
    GlobOfExample();
    var name, spec := "aaab", "*aab";
    assert SkipStars(spec, 1) == 1 && SkipStars(spec, 0) == 1;
    assert !Run(name, spec, Place(4, 1, 1, 4));
    assert !Run(name, spec, Place(3, 1, 1, 3));
    assert !Run(name, spec, Place(3, 2, 1, 2));
    assert !Run(name, spec, Place(2, 1, 1, 2));
    assert !Run(name, spec, Place(2, 3, 1, 1));
    assert !Run(name, spec, Place(1, 2, 1, 0));
    assert !Run(name, spec, Place(0, 1, 1, 0));
  }

  lemma GlobOfExample()
    ensures Glob("aaab", "*aab")
  {
    assert "*aab"[..3] == "*aa" && "*aa"[..2] == "*a" && "*a"[..1] == "*" && "*"[..0] == "";
    assert "aaab"[..3] == "aaa" && "aaa"[..2] == "aa" && "aa"[..1] == "a" && "a"[..0] == "";
    assert Glob("", "*");
    assert Glob("a", "*");
    assert Glob("aa", "*a");
    assert Glob("aaa", "*aa");
  }

  /* ---------- exclusion ---------- */

  /** The sets of names and of specs that are left out of a directory listing. */
  class DirReader {
    var excluded: set<string>
    var wildcardExcluded: set<string>

    constructor ()
      ensures excluded == {".", ".."} && wildcardExcluded == {}
    {
      excluded, wildcardExcluded := {".", ".."}, {};
    }

    method Exclude(spec: string)
      modifies this
      ensures if '?' in spec || '*' in spec then
                wildcardExcluded == old(wildcardExcluded) + {spec} && excluded == old(excluded)
              else excluded == old(excluded) + {spec} && wildcardExcluded == old(wildcardExcluded)
    {
      if '?' in spec || '*' in spec {
        wildcardExcluded := wildcardExcluded + {spec};
      } else {
        excluded := excluded + {spec};
      }
    }

    method IsExcluded(name: string) returns (r: bool)
      ensures r == ((exists e :: e in excluded && Fold(e) == Fold(name))
                    || exists w :: w in wildcardExcluded && Run(name, w, START))
    {
      var left := excluded;
      while left != {}
        invariant left <= excluded && forall e :: e in excluded - left ==> Fold(e) != Fold(name)
      {
        var e :| e in left;
        if Fold(e) == Fold(name) {
          return true;
        }
        left := left - {e};
      }
      left := wildcardExcluded;
      while left != {}
        invariant left <= wildcardExcluded && forall w :: w in wildcardExcluded - left ==> !Run(name, w, START)
      {
        var w :| w in left;
        var matched := Matches(name, w);
        if matched {
          return true;
        }
        left := left - {w};
      }
      r := false;
    }
  }

  /* ---------- the wildcards, written out ---------- */

  /** Equal, or the same letter in both cases. */
  predicate Agree(a: char, b: char) {
    a == b || ('A' <= a <= 'Z' && b as int == a as int + 32) || ('A' <= b <= 'Z' && a as int == b as int + 32)
  }

  lemma SameCharIs(a: char, b: char)
    ensures SameChar(a, b) <==> Agree(a, b)
  {
  }

  /** What each character of a spec matches. */
  lemma GlobOne(name: string, c: char)
    ensures Glob(name, "") <==> name == ""
    ensures Glob(name, "*")
    ensures Glob(name, "?") <==> |name| == 1
    ensures c != '*' && c != '?' ==> (Glob(name, [c]) <==> |name| == 1 && Agree(name[0], c))
  {
    assert "?"[..0] == "" && [c][..0] == "" && "*"[..0] == "";
    OneStar(name);
    if |name| == 1 {
      assert name[..0] == "";
    }
  }

  lemma {:induction false} OneStar(name: string)
    ensures Glob(name, "*")
    decreases |name|
  {
    assert "*"[..0] == "";
    if name != "" {
      OneStar(name[..|name| - 1]);
    }
  }

  lemma {:induction false} GlobJoins(name: string, k: nat, x: string, y: string)
    requires k <= |name| && Glob(name[..k], x) && Glob(name[k..], y)
    ensures Glob(name, x + y)
    decreases |y|, |name|
  {
    if y == "" {
      assert name[..k] == name && x + y == x;
    } else {
      var y', tail := y[..|y| - 1], name[k..];
      assert (x + y)[..|x + y| - 1] == x + y' && (x + y)[|x + y| - 1] == y[|y| - 1];
      if y[|y| - 1] == '*' && Glob(tail, y') {
        GlobJoins(name, k, x, y');
      } else {
        var name' := name[..|name| - 1];
        assert name'[..k] == name[..k] && name'[k..] == tail[..|tail| - 1];
        GlobJoins(name', k, x, if y[|y| - 1] == '*' then y else y');
      }
    }
  }

  lemma {:induction false} GlobSplits(name: string, x: string, y: string) returns (k: nat)
    requires Glob(name, x + y)
    ensures k <= |name| && Glob(name[..k], x) && Glob(name[k..], y)
    decreases |y|, |name|
  {
    if y == "" {
      k := |name|;
      assert name[..k] == name && x + y == x;
    } else {
      var y', xy := y[..|y| - 1], x + y;
      assert xy[..|xy| - 1] == x + y' && xy[|xy| - 1] == y[|y| - 1];
      if y[|y| - 1] == '*' && Glob(name, x + y') {
        k := GlobSplits(name, x, y');
      } else {
        var name' := name[..|name| - 1];
        k := GlobSplits(name', x, if y[|y| - 1] == '*' then y else y');
        assert name'[..k] == name[..k] && name[k..][..|name[k..]| - 1] == name'[k..];
      }
    }
  }

  /** A spec in two parts matches a name in two parts; with `GlobOne` this says what every spec matches. */
  lemma GlobConcat(name: string, x: string, y: string)
    ensures Glob(name, x + y) <==> exists k :: 0 <= k <= |name| && Glob(name[..k], x) && Glob(name[k..], y)
  {
    if Glob(name, x + y) {
      var k := GlobSplits(name, x, y);
    }
    if k :| 0 <= k <= |name| && Glob(name[..k], x) && Glob(name[k..], y) {
      GlobJoins(name, k, x, y);
    }
  }

  /** Position by position, for a spec without an asterisk. */
  lemma {:induction false} GlobPlain(name: string, spec: string)
    requires '*' !in spec
    ensures Glob(name, spec) <==>
      |name| == |spec| && forall i :: 0 <= i < |spec| ==> spec[i] == '?' || Agree(name[i], spec[i])
    decreases |spec|
  {
    if spec != "" && name != "" {
      var front, name' := spec[..|spec| - 1], name[..|name| - 1];
      assert forall c :: c in front ==> c in spec;
      GlobPlain(name', front);
      assert spec[|spec| - 1] in spec;
      SameCharIs(name[|name| - 1], spec[|spec| - 1]);
      if |name| == |spec| {
        assert forall i :: 0 <= i < |front| ==> front[i] == spec[i] && name'[i] == name[i];
      }
    }
  }

  /** Without an asterisk a name is accepted exactly if it agrees with the spec character by character, up to dots
      at the end of the spec. */
  lemma PlainSpecs(name: string, spec: string)
    requires '*' !in spec
    ensures Run(name, spec, START) <==>
      && |name| <= |spec|
      && (forall i :: 0 <= i < |name| ==> spec[i] == '?' || Agree(name[i], spec[i]))
      && (forall i :: |name| <= i < |spec| ==> spec[i] == '.')
  {
    hide Glob, Run;
    NoStarIsExact(name, spec);
    forall e | 0 <= e <= |spec|
      ensures Glob(name, spec[..e]) <==>
        |name| == e && forall i :: 0 <= i < e ==> spec[i] == '?' || Agree(name[i], spec[i])
    {
      assert forall c :: c in spec[..e] ==> c in spec;
      GlobPlain(name, spec[..e]);
    }
    assert forall i :: 0 <= i < |spec| ==> spec[i] in spec;
    if |name| <= |spec| {
      assert Glob(name, spec[..|name|]) <==> forall i :: 0 <= i < |name| ==> spec[i] == '?' || Agree(name[i], spec[i]);
    }
  }
}
