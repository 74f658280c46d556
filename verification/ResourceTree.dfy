/**
 The resource directory tree: sorted directories of named and numbered entries,
 and the editor that treats a tree of types, names and languages as a map.
 */
module ResourceTree {
  import opened Wrappers
  import opened Bytes

  /** An entry is known by a string of UTF-16 code units or by a number. */
  datatype Name = Str(chars: seq<Word>) | Id(id: Word)

  datatype Node = Sub(dir: Directory) | Data(bytes: seq<Byte>, codePage: DWord)

  datatype Entry = Entry(name: Name, child: Node)

  /** The header fields that are carried along unchanged. */
  datatype Info = Info(characteristics: DWord, stamp: DWord, major: Word, minor: Word)

  /** `m_rdDir`, with its two counters, and `m_vEntries`. */
  datatype Directory = Directory(info: Info, named: nat, ids: nat, entries: seq<Entry>)

  const NEW_DIRECTORY := Directory(Info(0, 0, 0, 0), 0, 0, [])

  /* ---------- order ---------- */

  /** `WinWStrCmp(a, b) < 0`: the first difference decides, the end of a string counts as zero. */
  predicate Less(a: seq<Word>, b: seq<Word>) {
    b != [] && (a == [] || a[0] < b[0] || (a[0] == b[0] && Less(a[1..], b[1..])))
  }

  lemma LessTrichotomy(a: seq<Word>, b: seq<Word>)
    ensures Less(a, b) || a == b || Less(b, a)
    ensures !(Less(a, b) && Less(b, a)) && !Less(a, a)
  {
    if a != [] && b != [] && a[0] == b[0] {
      LessTrichotomy(a[1..], b[1..]);
      assert a == [a[0]] + a[1..] && b == [b[0]] + b[1..];
    }
  }

  /** Up to `k` the two are equal, and there `a` is smaller or ends. */
  predicate SmallerAt(a: seq<Word>, b: seq<Word>, k: int) {
    0 <= k <= |a| && k < |b| && a[..k] == b[..k] && (k == |a| || a[k] < b[k])
  }

  lemma SmallerLater(a: seq<Word>, b: seq<Word>, k: nat)
    requires a != [] && b != [] && a[0] == b[0]
    ensures SmallerAt(a[1..], b[1..], k) <==> SmallerAt(a, b, k + 1)
  {
    if k < |a| && k < |b| {
      var c, d := a[1..], b[1..];
      assert a[..k + 1] == [a[0]] + c[..k] && b[..k + 1] == [b[0]] + d[..k];
      assert c[..k] == a[..k + 1][1..] && d[..k] == b[..k + 1][1..];
    }
  }

  /** The order in terms of the first difference. */
  lemma {:induction false} LessAtDifference(a: seq<Word>, b: seq<Word>)
    ensures Less(a, b) <==> exists k :: SmallerAt(a, b, k)
    decreases |a|
  {
    if a != [] && b != [] && a[0] == b[0] {
      var c, d := a[1..], b[1..];
      LessAtDifference(c, d);
      if Less(a, b) {
        var k :| SmallerAt(c, d, k);
        SmallerLater(a, b, k);
      }
      if k :| SmallerAt(a, b, k) {
        SmallerLater(a, b, k - 1);
      }
    } else if b != [] && (a == [] || a[0] < b[0]) {
      assert SmallerAt(a, b, 0);
    } else {
      forall k | 0 < k <= |a| && k < |b|
        ensures a[..k] != b[..k]
      {
        assert a[..k][0] != b[..k][0];
      }
    }
  }

  lemma LessTransitive(a: seq<Word>, b: seq<Word>, c: seq<Word>)
    requires Less(a, b) && Less(b, c)
    ensures Less(a, c)
  {
    if a != [] && a[0] == b[0] == c[0] {
      LessTransitive(a[1..], b[1..], c[1..]);
    }
  }

  /** Named entries come before numbered ones; each part is in its own order. */
  predicate Before(a: Name, b: Name) {
    match (a, b)
    case (Str(s), Str(t)) => Less(s, t)
    case (Str(_), Id(_)) => true
    case (Id(_), Str(_)) => false
    case (Id(i), Id(j)) => i < j
  }

  lemma BeforeTransitive(a: Name, b: Name, c: Name)
    requires Before(a, b) && Before(b, c)
    ensures Before(a, c)
  {
    if a.Str? && b.Str? && c.Str? {
      LessTransitive(a.chars, b.chars, c.chars);
    }
  }

  lemma BeforeTrichotomy(a: Name, b: Name)
    ensures Before(a, b) || a == b || Before(b, a)
    ensures !(Before(a, b) && Before(b, a)) && !Before(a, a)
  {
    if a.Str? && b.Str? {
      LessTrichotomy(a.chars, b.chars);
    }
    if a.Str? {
      LessTrichotomy(a.chars, a.chars);
    }
  }

  /** Strictly sorted, with counters that match. */
  ghost predicate Sorted(d: Directory) {
    && |d.entries| == d.named + d.ids
    && (forall i :: 0 <= i < |d.entries| ==> (d.entries[i].name.Str? <==> i < d.named))
    && (forall i, j :: 0 <= i < j < |d.entries| ==> Before(d.entries[i].name, d.entries[j].name))
  }

  /** Strings by their first difference, then numbers by size. */
  ghost predicate Ascending(es: seq<Entry>) {
    forall i, j :: 0 <= i < j < |es| ==>
      if es[j].name.Str? then es[i].name.Str? && exists k :: SmallerAt(es[i].name.chars, es[j].name.chars, k)
      else es[i].name.Str? || es[i].name.id < es[j].name.id
  }

  lemma SortedAscends(d: Directory)
    requires Sorted(d)
    ensures Ascending(d.entries)
  {
    forall i, j | 0 <= i < j < |d.entries| && d.entries[j].name.Str?
      ensures d.entries[i].name.Str? && exists k :: SmallerAt(d.entries[i].name.chars, d.entries[j].name.chars, k)
    {
      assert Before(d.entries[i].name, d.entries[j].name);
      LessAtDifference(d.entries[i].name.chars, d.entries[j].name.chars);
    }
  }

  /* ---------- one directory ---------- */

  /** The position of the entry with this exact name, or -1. */
  function Index(es: seq<Entry>, n: Name): (i: int)
    ensures -1 <= i < |es|
    ensures i >= 0 ==> es[i].name == n
    ensures i < 0 ==> forall j :: 0 <= j < |es| ==> es[j].name != n
    ensures i >= 0 ==> forall j :: 0 <= j < i ==> es[j].name != n
  {
    if es == [] then -1
    else
      var i := Index(es[..|es| - 1], n);
      if i >= 0 then i else if es[|es| - 1].name == n then |es| - 1 else -1
  }

  function Child(d: Directory, n: Name): Option<Node> {
    var i := Index(d.entries, n);
    if i >= 0 then Some(d.entries[i].child) else None
  }

  lemma SortedIndex(d: Directory, i: nat)
    requires Sorted(d) && i < |d.entries|
    ensures Index(d.entries, d.entries[i].name) == i
  {
    BeforeTrichotomy(d.entries[i].name, d.entries[i].name);
  }

  function Digits(s: seq<Word>, v: nat): nat {
    if s == [] || !(48 <= s[0] <= 57) then v else Digits(s[1..], v * 10 + (s[0] - 48))
  }

  /** Decimal digits: each one counts the number before it ten times. */
  lemma {:induction false} DigitsAppend(s: seq<Word>, d: nat, v: nat)
    requires (forall i :: 0 <= i < |s| ==> 48 <= s[i] <= 57) && d < 10
    ensures Digits(s + [48 + d], v) == 10 * Digits(s, v) + d && Digits([], v) == v
    decreases |s|
  {
    if s == [] {
      assert (s + [48 + d])[1..] == [];
    } else {
      assert (s + [48 + d])[1..] == s[1..] + [48 + d];
      DigitsAppend(s[1..], d, v * 10 + (s[0] - 48));
    }
  }

  /** A name as a text with '#': the number behind it, counted in 16 bits, with a sign in front or not. */
  lemma CanonicalNumber(digits: seq<Word>)
    requires forall i :: 0 <= i < |digits| ==> 48 <= digits[i] <= 57
    ensures Canonical(Str([35] + digits)) == Id(Digits(digits, 0) % 0x1_0000)
    ensures Canonical(Str([35, 45] + digits)) == Id((0 - Digits(digits, 0)) % 0x1_0000)
  {
    hide ToWord, Digits, Canonical;
    HashedName(digits);
    HashedName([45] + digits);
    assert [35, 45] + digits == [35] + ([45] + digits);
    PositiveWord(digits);
    SignedWord(digits);
  }

  lemma HashedName(rest: seq<Word>)
    ensures Canonical(Str([35] + rest)) == Id(ToWord(rest))
  {
    hide ToWord;
    assert ([35] + rest)[1..] == rest;
  }

  lemma PositiveWord(digits: seq<Word>)
    requires forall i :: 0 <= i < |digits| ==> 48 <= digits[i] <= 57
    ensures ToWord(digits) == Digits(digits, 0) % 0x1_0000
  {
    hide Digits;
  }

  lemma SignedWord(digits: seq<Word>)
    ensures ToWord([45] + digits) == (0 - Digits(digits, 0)) % 0x1_0000
  {
    hide Digits;
    assert ([45] + digits)[1..] == digits;
    NegativeWord(Digits(digits, 0));
  }

  lemma NegativeWord(d: nat)
    ensures (0x1_0000 - d % 0x1_0000) % 0x1_0000 == (0 - d) % 0x1_0000
  {
  }

  /** `WORD(WinWStrToInt(s))`. */
  function ToWord(s: seq<Word>): Word {
    if s != [] && s[0] == 45 then (0x1_0000 - Digits(s[1..], 0) % 0x1_0000) % 0x1_0000 else Digits(s, 0) % 0x1_0000
  }

  /** A string that starts with '#' is looked up as the number that follows. */
  predicate Hashed(n: Name) {
    n.Str? && n.chars != [] && n.chars[0] == 35
  }

  function Canonical(n: Name): Name {
    if Hashed(n) then Id(ToWord(n.chars[1..])) else n
  }

  /** `Find`. */
  method Find(d: Directory, n: Name) returns (r: int)
    ensures r == Index(d.entries, Canonical(n))
  {
    var key := Canonical(n);
    var i := 0;
    while i < |d.entries|
      invariant 0 <= i <= |d.entries|
      invariant forall j :: 0 <= j < i ==> d.entries[j].name != key
    {
      if d.entries[i].name.Str? == key.Str? && d.entries[i].name == key {
        return i;
      }
      i := i + 1;
    }
    return -1;
  }

  /** `r` is `d` with `e` put in at some position. */
  ghost predicate Inserted(d: Directory, e: Entry, r: Directory) {
    && r.info == d.info
    && r.named == d.named + (if e.name.Str? then 1 else 0)
    && r.ids == d.ids + (if e.name.Str? then 0 else 1)
    && exists k :: 0 <= k <= |d.entries| && r.entries == d.entries[..k] + [e] + d.entries[k..]
  }

  /** `AddEntry`: inserts in order, or refuses an entry whose name is taken. */
  method AddEntry(d: Directory, e: Entry) returns (added: bool, r: Directory)
    requires Sorted(d)
    ensures added <==> Child(d, e.name) == None
    ensures if added then Inserted(d, e, r) && Sorted(r) else r == d
    ensures Ascending(r.entries)
  {
    hide Ascending;
    var i: nat;
    if e.name.Str? {
      i := 0;
      while i < d.named
        invariant 0 <= i <= d.named
        invariant forall j :: 0 <= j < i ==> Before(d.entries[j].name, e.name)
      {
        BeforeTrichotomy(d.entries[i].name, e.name);
        if d.entries[i].name == e.name {
          SortedIndex(d, i);
          SortedAscends(d);
          return false, d;
        }
        if Less(e.name.chars, d.entries[i].name.chars) {
          break;
        }
        i := i + 1;
      }
      r := d.(named := d.named + 1);
    } else {
      i := d.named;
      while i < d.named + d.ids
        invariant d.named <= i <= d.named + d.ids
        invariant forall j :: 0 <= j < i ==> Before(d.entries[j].name, e.name)
      {
        if d.entries[i].name.id == e.name.id {
          SortedIndex(d, i);
          SortedAscends(d);
          return false, d;
        }
        if d.entries[i].name.id > e.name.id {
          break;
        }
        i := i + 1;
      }
      r := d.(ids := d.ids + 1);
    }
    r := r.(entries := d.entries[..i] + [e] + d.entries[i..]);
    forall j | i <= j < |d.entries| ensures Before(e.name, d.entries[j].name) {
      if i < j {
        assert Before(d.entries[i].name, d.entries[j].name);
        BeforeTransitive(e.name, d.entries[i].name, d.entries[j].name);
      }
    }
    InsertSorted(d, i, e, r);
    NotAmong(d, i, e.name);
    SortedAscends(r);
    return true, r;
  }

  lemma InsertSorted(d: Directory, k: nat, e: Entry, r: Directory)
    requires Sorted(d) && k <= |d.entries|
    requires forall j :: 0 <= j < k ==> Before(d.entries[j].name, e.name)
    requires forall j :: k <= j < |d.entries| ==> Before(e.name, d.entries[j].name)
    requires if e.name.Str? then k <= d.named else k >= d.named
    requires r == d.(named := d.named + (if e.name.Str? then 1 else 0), ids := d.ids + (if e.name.Str? then 0 else 1),
                     entries := d.entries[..k] + [e] + d.entries[k..])
    ensures Sorted(r)
  {
    forall i | 0 <= i < |r.entries|
      ensures r.entries[i] == if i < k then d.entries[i] else if i == k then e else d.entries[i - 1]
    {
    }
  }

  lemma NotAmong(d: Directory, k: nat, n: Name)
    requires k <= |d.entries|
    requires forall j :: 0 <= j < k ==> Before(d.entries[j].name, n)
    requires forall j :: k <= j < |d.entries| ==> Before(n, d.entries[j].name)
    ensures Child(d, n) == None
  {
    BeforeTrichotomy(n, n);
  }

  /** `RemoveEntry`. */
  function Removed(d: Directory, i: nat): Directory
    requires i < |d.entries| && Sorted(d)
  {
    d.(named := if d.entries[i].name.Str? then d.named - 1 else d.named,
       ids := if d.entries[i].name.Str? then d.ids else d.ids - 1,
       entries := d.entries[..i] + d.entries[i + 1..])
  }

  /** The directory with the child of entry `i` updated in place. */
  function Updated(d: Directory, i: nat, child: Node): Directory
    requires i < |d.entries|
  {
    d.(entries := d.entries[i := d.entries[i].(child := child)])
  }

  /* What the three edits do to lookups. */

  lemma ChildInserted(d: Directory, e: Entry, r: Directory, n: Name)
    requires Sorted(d) && Sorted(r) && Inserted(d, e, r)
    ensures Child(r, n) == if n == e.name then Some(e.child) else Child(d, n)
  {
    hide Sorted, Index;
    var k :| 0 <= k <= |d.entries| && r.entries == d.entries[..k] + [e] + d.entries[k..];
    if n == e.name {
      assert r.entries[k] == e;
      SortedIndex(r, k);
    } else {
      var i := Index(d.entries, n);
      if i >= 0 {
        var j := if i < k then i else i + 1;
        assert r.entries[j] == d.entries[i];
        SortedIndex(r, j);
      } else {
        forall j | 0 <= j < |r.entries| ensures r.entries[j].name != n {
          assert r.entries[j] == if j < k then d.entries[j] else if j == k then e else d.entries[j - 1];
        }
      }
    }
  }

  lemma RemovedSorted(d: Directory, i: nat)
    requires Sorted(d) && i < |d.entries|
    ensures Sorted(Removed(d, i)) && |Removed(d, i).entries| == |d.entries| - 1
    ensures forall j {:trigger Removed(d, i).entries[j]} :: 0 <= j < |d.entries| - 1 ==>
      Removed(d, i).entries[j] == if j < i then d.entries[j] else d.entries[j + 1]
  {
    var r := Removed(d, i);
    assert forall j :: 0 <= j < |r.entries| ==> r.entries[j] == if j < i then d.entries[j] else d.entries[j + 1];
  }

  lemma ChildRemoved(d: Directory, i: nat, n: Name)
    requires Sorted(d) && i < |d.entries|
    ensures Child(Removed(d, i), n) == if n == d.entries[i].name then None else Child(d, n)
  {
    hide Sorted, Removed, Index;
    RemovedSorted(d, i);
    var r := Removed(d, i);
    SortedIndex(d, i);
    var k, j := Index(d.entries, n), Index(r.entries, n);
    if k >= 0 && k != i {
      var p := if k < i then k else k - 1;
      assert r.entries[p] == d.entries[k];
      SortedIndex(r, p);
    }
    if j >= 0 {
      assert r.entries[j] == d.entries[if j < i then j else j + 1];
      SortedIndex(d, if j < i then j else j + 1);
    }
  }

  lemma ChildUpdated(d: Directory, i: nat, child: Node, n: Name)
    requires Sorted(d) && i < |d.entries|
    ensures Sorted(Updated(d, i, child))
    ensures Child(Updated(d, i, child), n) == if n == d.entries[i].name then Some(child) else Child(d, n)
  {
    var r := Updated(d, i, child);
    assert forall j :: 0 <= j < |r.entries| ==> r.entries[j].name == d.entries[j].name;
    SortedIndex(r, i);
    SortedIndex(d, i);
    var k := Index(d.entries, n);
    if k >= 0 {
      SortedIndex(r, k);
    }
  }
}
