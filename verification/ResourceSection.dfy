/**
 The complete section: data entries, names, raw data and offsets after the
 directories, and the round trip through the scanner.
 */
module ResourceSection {
  import opened Numbers
  import opened Bytes
  import opened ResourceTree
  import opened ResourceLayout
  import opened ResourceWriter
  import opened ResourceImage

  /* ---------- data entries ---------- */

  lemma ImageStart(s: seq<Byte>, root: Directory, va: nat, dirAt: map<Path, int>, entryAt: map<Path, int>,
                   seeker: nat, leaves: seq<Path>, names: seq<Path>)
    requires Progress(s, root, seeker, dirAt, entryAt, [], leaves, names) && seeker <= |s|
    ensures var m := Marks(dirAt, entryAt, map[], seeker, seeker);
      Laid(root, m) && Image(s, root, va, m, map[], map[], {}, seeker)
  {
    hide IsDir, DirAt, Covered, Accounted, AllDirs, AllEntries, DirsPlaced, EntriesPlaced, HeaderAt;
    var m := Marks(dirAt, entryAt, map[], seeker, seeker);
    forall q | q in m.entryAt ensures IsEntry(root, q) && EntryWord(s, m, map[], {}, q, EntryAt(root, q)) {
      OldWords(s, root, dirAt, entryAt, q);
    }
  }

  /** A data entry as first written: no address yet. */
  ghost predicate FreshData(s: seq<Byte>, at: nat, e: Entry) {
    e.child.Data? && at + 16 <= |s| && Get32(s, at + 4) == |e.child.bytes| && Get32(s, at + 8) == e.child.codePage
  }

  lemma LaidNext(root: Directory, m: Marks, q: Path)
    requires Laid(root, m)
    ensures Laid(root, m.(dataAt := m.dataAt[q := m.dataEnd], dataEnd := m.dataEnd + 16))
  {
    hide DirsPlaced, EntriesPlaced;
  }

  lemma HeadersSame(t: seq<Byte>, root: Directory, m: Marks, m': Marks)
    requires Headers(t, root, m) && m'.dirAt == m.dirAt
    ensures Headers(t, root, m')
  {
  }

  lemma EntryWordsExtend(t: seq<Byte>, root: Directory, m: Marks, q: Path, m': Marks)
    requires EntryWords(t, root, m, map[], {})
        && m' == m.(dataAt := m.dataAt[q := m.dataEnd], dataEnd := m.dataEnd + 16)
    ensures EntryWords(t, root, m', map[], {})
  {
    hide IsDir, DirAt, IsEntry, EntryAt;
    forall q' | q' in m'.entryAt ensures IsEntry(root, q') && EntryWord(t, m', map[], {}, q', EntryAt(root, q')) {
      assert EntryWord(t, m, map[], {}, q', EntryAt(root, q'));
    }
  }

  lemma DataWordsExtend(t: seq<Byte>, root: Directory, va: nat, m: Marks, q: Path, m': Marks)
    requires DataWords(t, root, va, m, map[]) && m' == m.(dataAt := m.dataAt[q := m.dataEnd], dataEnd := m.dataEnd + 16)
    requires IsEntry(root, q) && FreshData(t, m.dataEnd, EntryAt(root, q))
    ensures DataWords(t, root, va, m', map[])
  {
    hide IsDir, DirAt, IsEntry, EntryAt;
    forall q' | q' in m'.dataAt ensures IsEntry(root, q') && DataWord(t, va, m', map[], q', EntryAt(root, q')) {
      if q' != q {
        assert DataWord(t, va, m, map[], q', EntryAt(root, q'));
      }
    }
  }

  lemma DataAdded(s: seq<Byte>, t: seq<Byte>, root: Directory, va: nat, m: Marks, q: Path)
    requires Laid(root, m) && Image(s, root, va, m, map[], map[], {}, m.dataEnd)
    requires Kept(s, t, 0, m.dataEnd) && IsEntry(root, q) && FreshData(t, m.dataEnd, EntryAt(root, q))
    ensures var m' := m.(dataAt := m.dataAt[q := m.dataEnd], dataEnd := m.dataEnd + 16);
      Laid(root, m') && Image(t, root, va, m', map[], map[], {}, m'.dataEnd)
  {
    var m' := m.(dataAt := m.dataAt[q := m.dataEnd], dataEnd := m.dataEnd + 16);
    assert m'.dataEnd <= |t| && Kept(s, t, 0, m.dirsEnd) && Kept(s, t, m.dirsEnd, m.dataEnd);
    assert Strings(t, root, m', map[], m'.dataEnd) && RawBytes(t, root, m', map[], m'.dataEnd);
    HeadersKept(s, t, root, m);
    HeadersSame(t, root, m, m');
    hide Laid, Kept, Headers, Strings, RawBytes, EntryWords, DataWords, IsDir, DirAt, IsEntry, EntryAt, FreshData;
    LaidNext(root, m, q);
    EntryWordsKept(s, t, root, m, map[], {});
    EntryWordsExtend(t, root, m, q, m');
    DataWordsKept(s, t, root, va, m, map[]);
    DataWordsExtend(t, root, va, m, q, m');
  }

  method WriteDataEntry(sec: array<Byte>, seeker: nat, e: Entry)
    requires e.child.Data? && |e.child.bytes| < DWORD_LIMIT && seeker + 16 <= sec.Length
    modifies sec
    ensures Kept(old(sec[..]), sec[..], 0, seeker) && FreshData(sec[..], seeker, e)
  {
    Poke32(sec, seeker, 0);
    Poke32(sec, seeker + 4, |e.child.bytes|);
    Poke32(sec, seeker + 8, e.child.codePage);
    Poke32(sec, seeker + 12, 0);
  }

  /** Every queued resource has its data entry. */
  ghost predicate LeavesDone(s: seq<Byte>, root: Directory, va: nat, m: Marks, leaves: seq<Path>, n: nat)
    requires n <= |leaves|
  {
    && Laid(root, m) && Image(s, root, va, m, map[], map[], {}, m.dataEnd) && m.dataEnd == m.dirsEnd + 16 * n
    && forall j :: 0 <= j < n ==> leaves[j] in m.dataAt
  }

  method WriteLeaf(sec: array<Byte>, root: Directory, ghost va: nat, m: Marks, leaves: seq<Path>, n: nat)
      returns (m': Marks)
    requires Storable(root) && n < |leaves| && LeavesDone(sec[..], root, va, m, leaves, n)
    requires IsEntry(root, leaves[n]) && EntryAt(root, leaves[n]).child.Data? && m.dataEnd + 16 <= sec.Length
    modifies sec
    ensures LeavesDone(sec[..], root, va, m', leaves, n + 1)
    ensures m' == m.(dataAt := m'.dataAt, dataEnd := m.dataEnd + 16)
  {
    var q := leaves[n];
    StorableAt(root, q);
    hide IsDir, DirAt, IsEntry, EntryAt, Laid, Image, Storable, StorableEntry, FreshData;
    ghost var s := sec[..];
    WriteDataEntry(sec, m.dataEnd, EntryAt(root, q));
    DataAdded(s, sec[..], root, va, m, q);
    m' := m.(dataAt := m.dataAt[q := m.dataEnd], dataEnd := m.dataEnd + 16);
  }

  lemma StorableAt(root: Directory, q: Path)
    requires Storable(root) && IsEntry(root, q)
    ensures StorableEntry(EntryAt(root, q))
    ensures EntryAt(root, q).child.Data? ==> |EntryAt(root, q).child.bytes| < DWORD_LIMIT
    ensures EntryAt(root, q).name.Str? ==> |EntryAt(root, q).name.chars| < WORD_LIMIT
  {
    StorableDir(root, Front(q));
  }

  ghost predicate AllData(root: Directory, leaves: seq<Path>) {
    forall j :: 0 <= j < |leaves| ==> IsEntry(root, leaves[j]) && EntryAt(root, leaves[j]).child.Data?
  }

  ghost predicate AllNamed(root: Directory, names: seq<Path>) {
    forall j :: 0 <= j < |names| ==> IsEntry(root, names[j]) && EntryAt(root, names[j]).name.Str?
  }

  method WriteLeaves(sec: array<Byte>, root: Directory, ghost va: nat, m0: Marks, leaves: seq<Path>) returns (m: Marks)
    requires Storable(root) && AllData(root, leaves) && m0.dirsEnd + 16 * |leaves| <= sec.Length
    requires LeavesDone(sec[..], root, va, m0, leaves, 0)
    modifies sec
    ensures LeavesDone(sec[..], root, va, m, leaves, |leaves|)
    ensures m == m0.(dataAt := m.dataAt, dataEnd := m0.dirsEnd + 16 * |leaves|)
  {
    hide LeavesDone, IsEntry, EntryAt, Storable;
    m := m0;
    var n := 0;
    assert m0.dataEnd == m0.dirsEnd by {
      LeavesCount(sec[..], root, va, m0, leaves, 0);
    }
    while n < |leaves|
      invariant 0 <= n <= |leaves| && LeavesDone(sec[..], root, va, m, leaves, n)
      invariant m == m0.(dataAt := m.dataAt, dataEnd := m0.dirsEnd + 16 * n)
    {
      m := WriteLeaf(sec, root, va, m, leaves, n);
      n := n + 1;
    }
  }

  lemma LeavesCount(s: seq<Byte>, root: Directory, va: nat, m: Marks, leaves: seq<Path>, n: nat)
    requires n <= |leaves| && LeavesDone(s, root, va, m, leaves, n)
    ensures m.dataEnd == m.dirsEnd + 16 * n
  {
  }

  /* ---------- names ---------- */

  /** What the string loop asserts of its write position. */
  predicate Aligned(n: nat) {
    n % 4 == 0
  }

  /** Names are laid out in steps of four bytes, raw data in steps of eight. */
  predicate OnGrid(k: Region, distance: int) {
    (k == Names ==> distance % 4 == 0) && (k == Raws ==> distance % 8 == 0)
  }

  lemma OwnOnGrid(k: Region, e: Entry, distance: int)
    requires OnGrid(k, distance)
    ensures OnGrid(k, distance + OwnEntry(k, e))
  {
  }

  /** What an entry takes up in a region. */
  function Room(k: Region, root: Directory, q: Path): nat {
    if IsEntry(root, q) then OwnEntry(k, EntryAt(root, q)) else 0
  }

  /** Objects of one region lie on its grid between `lo` and `hi` and do not overlap. */
  ghost predicate Spread(k: Region, root: Directory, at: map<Path, int>, lo: nat, hi: nat) {
    Within(k, root, at, lo, hi) && Apart(k, root, at)
  }

  ghost predicate Within(k: Region, root: Directory, at: map<Path, int>, lo: nat, hi: nat) {
    forall q :: q in at ==>
      IsEntry(root, q) && lo <= at[q] && at[q] + Room(k, root, q) <= hi && OnGrid(k, at[q] - lo)
  }

  ghost predicate Apart(k: Region, root: Directory, at: map<Path, int>) {
    forall q, q' :: q in at && q' in at && q != q' ==>
      at[q] + Room(k, root, q) <= at[q'] || at[q'] + Room(k, root, q') <= at[q]
  }

  lemma SpreadNext(k: Region, root: Directory, at: map<Path, int>, lo: nat, hi: nat, q: Path)
    requires Spread(k, root, at, lo, hi) && IsEntry(root, q) && lo <= hi && OnGrid(k, hi - lo)
    ensures Spread(k, root, at[q := hi], lo, hi + OwnEntry(k, EntryAt(root, q)))
  {
    WithinNext(k, root, at, lo, hi, q);
    ApartNext(k, root, at, lo, hi, q);
  }

  lemma WithinNext(k: Region, root: Directory, at: map<Path, int>, lo: nat, hi: nat, q: Path)
    requires Within(k, root, at, lo, hi) && IsEntry(root, q) && lo <= hi && OnGrid(k, hi - lo)
    ensures Within(k, root, at[q := hi], lo, hi + Room(k, root, q))
  {
    hide IsDir, DirAt, IsEntry, EntryAt, OnGrid, Room;
  }

  lemma ApartNext(k: Region, root: Directory, at: map<Path, int>, lo: nat, hi: nat, q: Path)
    requires Within(k, root, at, lo, hi) && Apart(k, root, at)
    ensures Apart(k, root, at[q := hi])
  {
    hide IsDir, DirAt, IsEntry, EntryAt, OnGrid, Room;
  }

  function UnitBytes(chars: seq<Word>): (b: seq<Byte>)
    ensures |b| == 2 * |chars|
  {
    if chars == [] then [] else UnitBytes(chars[..|chars| - 1]) + Le16(chars[|chars| - 1])
  }

  lemma {:induction false} UnitBytesAt(chars: seq<Word>, j: nat)
    requires j < |chars|
    ensures Get16(UnitBytes(chars), 2 * j) == chars[j]
  {
    var front := chars[..|chars| - 1];
    if j < |front| {
      UnitBytesAt(front, j);
      assert UnitBytes(chars)[..2 * |front|] == UnitBytes(front);
      assert Get16(UnitBytes(chars), 2 * j) == Get16(UnitBytes(front), 2 * j);
    }
  }

  /** The length word and the characters. */
  method WriteString(sec: array<Byte>, seeker: nat, chars: seq<Word>)
    requires |chars| < WORD_LIMIT && seeker + 2 + 2 * |chars| <= sec.Length
    modifies sec
    ensures Kept(old(sec[..]), sec[..], 0, seeker) && StringAt(sec[..], seeker, chars)
  {
    Poke16(sec, seeker, |chars|);
    var bytes := UnitBytes(chars);
    Poke(sec, seeker + 2, bytes);
    ghost var t := sec[..];
    forall j | 0 <= j < |chars| ensures Get16(t, seeker + 2 + 2 * j) == chars[j] {
      UnitBytesAt(chars, j);
      assert t[seeker + 2..seeker + 2 + |bytes|][2 * j] == bytes[2 * j];
      assert t[seeker + 2..seeker + 2 + |bytes|][2 * j + 1] == bytes[2 * j + 1];
    }
  }

  /** A word with its low 31 bits replaced. */
  lemma FlagKept(w: int, v: int)
    requires w == HIGH_BIT || HIGH_BIT <= w < DWORD_LIMIT
    requires 0 <= v < HIGH_BIT
    ensures w - w % 0x8000_0000 + v == HIGH_BIT + v
  {
  }

  lemma NamedWord(s: seq<Byte>, t: seq<Byte>, m: Marks, strAt: map<Path, int>, q: Path, e: Entry, seeker: nat)
    requires q in m.entryAt && EntryWord(s, m, strAt, {}, q, e) && m.entryAt[q] + 8 <= seeker
    requires Outside(s, t, m.entryAt[q], m.entryAt[q] + 4, seeker) && Get32(t, m.entryAt[q]) == HIGH_BIT + seeker
    ensures EntryWord(t, m, strAt[q := seeker], {}, q, e)
  {
    hide Target;
    SameWord(s, t, m.entryAt[q] + 4);
  }

  lemma NameAdded(s: seq<Byte>, t: seq<Byte>, root: Directory, va: nat, m: Marks, strAt: map<Path, int>, q: Path,
                  seeker: nat, lim: nat)
    requires Laid(root, m) && Image(s, root, va, m, strAt, map[], {}, seeker) && q in m.entryAt
    requires IsEntry(root, q) && EntryAt(root, q).name.Str?
    requires lim == seeker + NameSize(EntryAt(root, q).name.chars) && StringAt(t, seeker, EntryAt(root, q).name.chars)
    requires 0 <= m.entryAt[q] && m.entryAt[q] + 8 <= seeker && lim <= |t|
        && Get32(t, m.entryAt[q]) == HIGH_BIT + seeker
    requires Outside(s, t, m.entryAt[q], m.entryAt[q] + 4, seeker)
    ensures Image(t, root, va, m, strAt[q := seeker], map[], {}, lim)
  {
    var chars := EntryAt(root, q).name.chars;
    InDirs(root, m, q);
    assert NameSize(chars) >= 2 + 2 * |chars|;
    assert Kept(s, t, m.dataEnd, seeker);
    assert EntryWord(s, m, strAt, {}, q, EntryAt(root, q));
    hide Laid, Kept, Headers, EntryWords, DataWords, RawBytes, Strings, StringAt, EntryWord, NameSize, IsDir, DirAt,
        IsEntry, EntryAt;
    StringsKept(s, t, root, m, strAt, seeker, lim);
    NamedWord(s, t, m, strAt, q, EntryAt(root, q), seeker);
    StringsAdd(t, root, m, strAt, q, seeker, lim);
    hide Image;
    ImageEntry(s, t, root, va, m, q, m.entryAt[q], strAt, map[], {}, seeker, strAt[q := seeker], {}, lim);
  }

  lemma StringsAdd(t: seq<Byte>, root: Directory, m: Marks, strAt: map<Path, int>, q: Path, seeker: nat, lim: nat)
    requires Strings(t, root, m, strAt, lim) && IsEntry(root, q) && EntryAt(root, q).name.Str? && m.dataEnd <= seeker
    requires StringAt(t, seeker, EntryAt(root, q).name.chars) && seeker + 2 + 2 * |EntryAt(root, q).name.chars| <= lim
    ensures Strings(t, root, m, strAt[q := seeker], lim)
  {
    hide IsDir, DirAt, IsEntry, EntryAt, StringAt;
  }

  /** The entry at `at` gets the offset of the name, then the name is written. */
  method PokeName(sec: array<Byte>, at: nat, chars: seq<Word>, seeker: nat)
    requires at + 8 <= seeker < HIGH_BIT && seeker <= sec.Length && HIGH_BIT <= Get32(sec[..], at)
    requires |chars| < WORD_LIMIT && seeker + 2 + 2 * |chars| <= sec.Length
    modifies sec
    ensures Outside(old(sec[..]), sec[..], at, at + 4, seeker)
    ensures Get32(sec[..], at) == HIGH_BIT + seeker && StringAt(sec[..], seeker, chars)
  {
    var w := Get32(sec[..], at);
    FlagKept(w, seeker);
    Poke32(sec, at, w - w % 0x8000_0000 + seeker);
    ghost var s := sec[..];
    WriteString(sec, seeker, chars);
    SameWord(s, sec[..], at);
  }

  /** One turn of the string loop. */
  method WriteName(sec: array<Byte>, root: Directory, ghost va: nat, m: Marks, ghost strAt: map<Path, int>, q: Path,
                   seeker: nat)
    requires Laid(root, m) && Image(sec[..], root, va, m, strAt, map[], {}, seeker) && q in m.entryAt
    requires IsEntry(root, q) && EntryAt(root, q).name.Str? && |EntryAt(root, q).name.chars| < WORD_LIMIT
    requires Aligned(seeker) && seeker < HIGH_BIT && seeker + NameSize(EntryAt(root, q).name.chars) <= sec.Length
    modifies sec
    ensures Image(sec[..], root, va, m, strAt[q := seeker], map[], {}, seeker + NameSize(EntryAt(root, q).name.chars))
  {
    hide Laid, Image, IsDir, DirAt, IsEntry, EntryAt, NameSize, StringAt, Kept, Align;
    ghost var s := sec[..];
    NameReady(s, root, va, m, strAt, q, seeker);
    PokeName(sec, m.entryAt[q], EntryAt(root, q).name.chars, seeker);
    NameAdded(s, sec[..], root, va, m, strAt, q, seeker, seeker + NameSize(EntryAt(root, q).name.chars));
  }

  /** Before its name is written, a named entry has the string flag set. */
  lemma NameReady(s: seq<Byte>, root: Directory, va: nat, m: Marks, strAt: map<Path, int>, q: Path, seeker: nat)
    requires Laid(root, m) && Image(s, root, va, m, strAt, map[], {}, seeker) && q in m.entryAt && seeker < HIGH_BIT
    requires IsEntry(root, q) && EntryAt(root, q).name.Str?
    ensures 0 <= m.entryAt[q] && m.entryAt[q] + 8 <= seeker <= |s| && HIGH_BIT <= Get32(s, m.entryAt[q])
    ensures NameSize(EntryAt(root, q).name.chars) >= 2 + 2 * |EntryAt(root, q).name.chars|
  {
    InDirs(root, m, q);
    assert EntryWord(s, m, strAt, {}, q, EntryAt(root, q));
  }

  lemma OwnStep(k: Region, root: Directory, qs: seq<Path>, n: nat)
    requires AllEntries(root, qs) && n < |qs|
    ensures AllEntries(root, qs[..n]) && AllEntries(root, qs[..n + 1]) && IsEntry(root, qs[n])
    ensures OwnPaths(k, root, qs[..n + 1]) == OwnPaths(k, root, qs[..n]) + OwnEntry(k, EntryAt(root, qs[n]))
    ensures OwnPaths(k, root, qs[..n + 1]) <= OwnPaths(k, root, qs)
  {
    hide IsDir, DirAt, IsEntry, EntryAt, OwnEntry;
    assert qs[..n + 1][..n] == qs[..n];
    assert qs == qs[..n + 1] + qs[n + 1..];
    OwnConcat(k, root, qs[..n + 1], qs[n + 1..]);
  }

  /** The queue `qs` feeds region `k`, which starts at `from`, and fits below `limit`. */
  ghost predicate Fits(k: Region, root: Directory, qs: seq<Path>, from: nat, limit: nat) {
    AllEntries(root, qs) && from + OwnPaths(k, root, qs) <= limit
  }

  /** The first `n` objects of the queue have been written to region `k` from `from` to `seeker`. */
  ghost predicate QueueDone(k: Region, root: Directory, qs: seq<Path>, n: nat, from: nat, seeker: nat,
                            at: map<Path, int>)
    requires n <= |qs|
  {
    && AllEntries(root, qs) && AllEntries(root, qs[..n]) && seeker == from + OwnPaths(k, root, qs[..n])
    && Spread(k, root, at, from, seeker) && OnGrid(k, seeker - from)
    && forall j :: 0 <= j < n ==> qs[j] in at
  }

  lemma QueueNext(k: Region, root: Directory, qs: seq<Path>, n: nat, from: nat, seeker: nat, at: map<Path, int>)
    requires n < |qs| && QueueDone(k, root, qs, n, from, seeker, at)
    ensures IsEntry(root, qs[n])
    ensures QueueDone(k, root, qs, n + 1, from, seeker + OwnEntry(k, EntryAt(root, qs[n])), at[qs[n] := seeker])
  {
    hide IsDir, DirAt, IsEntry, EntryAt, OwnEntry, OwnPaths, Spread, OnGrid;
    OwnStep(k, root, qs, n);
    OwnOnGrid(k, EntryAt(root, qs[n]), seeker - from);
    SpreadNext(k, root, at, from, seeker, qs[n]);
  }

  ghost predicate NamesDone(s: seq<Byte>, root: Directory, va: nat, m: Marks, names: seq<Path>, n: nat,
                            strAt: map<Path, int>, seeker: nat)
    requires n <= |names|
  {
    && Laid(root, m) && Image(s, root, va, m, strAt, map[], {}, seeker)
    && QueueDone(Names, root, names, n, m.dataEnd, seeker, strAt) && Aligned(seeker)
  }

  lemma NamesDoneReady(s: seq<Byte>, root: Directory, va: nat, m: Marks, names: seq<Path>, n: nat,
                       strAt: map<Path, int>, seeker: nat, limit: nat)
    requires n < |names| && NamesDone(s, root, va, m, names, n, strAt, seeker)
        && Fits(Names, root, names, m.dataEnd, limit)
    requires AllNamed(root, names) && Storable(root)
    ensures Laid(root, m) && Image(s, root, va, m, strAt, map[], {}, seeker) && Aligned(seeker)
    ensures IsEntry(root, names[n]) && EntryAt(root, names[n]).name.Str?
    ensures |EntryAt(root, names[n]).name.chars| < WORD_LIMIT
    ensures seeker + NameSize(EntryAt(root, names[n]).name.chars) <= limit
  {
    hide IsDir, DirAt, IsEntry, EntryAt, Laid, Image, Storable, NameSize, OwnPaths;
    OwnStep(Names, root, names, n);
    StorableAt(root, names[n]);
  }

  lemma NamesDoneNext(t: seq<Byte>, root: Directory, va: nat, m: Marks, names: seq<Path>, n: nat,
                      strAt: map<Path, int>, seeker: nat, s: seq<Byte>, q: Path, lim: nat)
    requires n < |names| && NamesDone(s, root, va, m, names, n, strAt, seeker) && q == names[n]
    requires IsEntry(root, q) && EntryAt(root, q).name.Str? && lim == seeker + NameSize(EntryAt(root, q).name.chars)
    requires Image(t, root, va, m, strAt[q := seeker], map[], {}, lim)
    ensures NamesDone(t, root, va, m, names, n + 1, strAt[q := seeker], lim)
  {
    hide QueueDone, IsDir, DirAt, IsEntry, EntryAt, Laid, Image, NameSize, OwnEntry, Aligned;
    AlignedName(seeker, EntryAt(root, q).name.chars);
    QueueNext(Names, root, names, n, m.dataEnd, seeker, strAt);
    NameWeight(EntryAt(root, q));
  }

  lemma NameWeight(e: Entry)
    requires e.name.Str?
    ensures OwnEntry(Names, e) == NameSize(e.name.chars)
  {
  }

  lemma AlignedName(seeker: nat, chars: seq<Word>)
    requires Aligned(seeker)
    ensures Aligned(seeker + NameSize(chars))
  {
  }

  method WriteNextName(sec: array<Byte>, root: Directory, ghost va: nat, m: Marks, names: seq<Path>, n: nat,
                       ghost strAt: map<Path, int>, seeker: nat) returns (ghost strAt': map<Path, int>, seeker': nat)
    requires n < |names| && NamesDone(sec[..], root, va, m, names, n, strAt, seeker)
    requires AllNamed(root, names) && Storable(root) && names[n] in m.entryAt
    requires sec.Length < HIGH_BIT && Fits(Names, root, names, m.dataEnd, sec.Length)
    modifies sec
    ensures NamesDone(sec[..], root, va, m, names, n + 1, strAt', seeker')
  {
    hide NamesDone, IsDir, DirAt, IsEntry, EntryAt, Laid, Image, Storable, NameSize, Fits;
    ghost var s := sec[..];
    NamesDoneReady(s, root, va, m, names, n, strAt, seeker, sec.Length);
    var q := names[n];
    seeker' := seeker + NameSize(EntryAt(root, q).name.chars);
    WriteName(sec, root, va, m, strAt, q, seeker);
    NamesDoneNext(sec[..], root, va, m, names, n, strAt, seeker, s, q, seeker');
    strAt' := strAt[q := seeker];
  }

  /** The third phase. */
  method WriteNames(sec: array<Byte>, root: Directory, ghost va: nat, m: Marks, names: seq<Path>)
    returns (ghost strAt: map<Path, int>, seeker: nat)
    requires NamesDone(sec[..], root, va, m, names, 0, map[], m.dataEnd)
    requires AllNamed(root, names) && Storable(root) && (forall q :: q in names ==> q in m.entryAt)
    requires sec.Length < HIGH_BIT && Fits(Names, root, names, m.dataEnd, sec.Length)
    modifies sec
    ensures NamesDone(sec[..], root, va, m, names, |names|, strAt, seeker)
  {
    hide NamesDone, Storable, Fits, AllNamed;
    strAt, seeker := map[], m.dataEnd;
    var n := 0;
    while n < |names|
      invariant 0 <= n <= |names| && NamesDone(sec[..], root, va, m, names, n, strAt, seeker)
    {
      strAt, seeker := WriteNextName(sec, root, va, m, names, n, strAt, seeker);
      n := n + 1;
    }
  }

  /* ---------- raw data ---------- */

  /** The data is copied, then its address goes into the data entry at `at`. */
  method PokeData(sec: array<Byte>, va: nat, at: nat, bytes: seq<Byte>, seeker: nat)
    requires at + 16 <= seeker && seeker + |bytes| <= sec.Length && va + seeker < DWORD_LIMIT
    modifies sec
    ensures Outside(old(sec[..]), sec[..], at, at + 4, seeker)
    ensures Get32(sec[..], at) == va + seeker && sec[..][seeker..seeker + |bytes|] == bytes
  {
    Poke(sec, seeker, bytes);
    ghost var s := sec[..];
    Poke32(sec, at, seeker + va);
    SliceKept(s, sec[..], seeker, |bytes|);
  }

  lemma SliceKept(s: seq<Byte>, t: seq<Byte>, o: nat, n: nat)
    requires o + n <= |s| && Kept(s, t, o, |s|)
    ensures o + n <= |t| && t[o..o + n] == s[o..o + n]
  {
  }

  lemma RawBytesAdd(t: seq<Byte>, root: Directory, m: Marks, rawAt: map<Path, int>, q: Path, seeker: nat, lim: nat)
    requires RawBytes(t, root, m, rawAt, lim) && IsEntry(root, q) && EntryAt(root, q).child.Data? && m.dataEnd <= seeker
    requires var bytes := EntryAt(root, q).child.bytes;
      seeker + |bytes| <= lim <= |t| && t[seeker..seeker + |bytes|] == bytes
    ensures RawBytes(t, root, m, rawAt[q := seeker], lim)
  {
    hide IsDir, DirAt, IsEntry, EntryAt;
  }

  lemma DataPlaceAdded(s: seq<Byte>, t: seq<Byte>, root: Directory, va: nat, m: Marks, strAt: map<Path, int>,
                       rawAt: map<Path, int>, q: Path, seeker: nat, lim: nat)
    requires Laid(root, m) && Image(s, root, va, m, strAt, rawAt, {}, seeker) && q in m.dataAt && 0 <= m.dataAt[q]
    requires IsEntry(root, q) && EntryAt(root, q).child.Data?
    requires var bytes := EntryAt(root, q).child.bytes;
      && seeker + |bytes| <= lim <= |t| && t[seeker..seeker + |bytes|] == bytes
    requires m.dataAt[q] + 16 <= seeker && Outside(s, t, m.dataAt[q], m.dataAt[q] + 4, seeker)
    requires Get32(t, m.dataAt[q]) == va + seeker
    ensures Image(t, root, va, m, strAt, rawAt[q := seeker], {}, lim)
  {
    hide Laid, Headers, EntryWords, DataWords, Strings, RawBytes, IsDir, DirAt, IsEntry, EntryAt;
    RawBytesLater(s, t, root, va, m, strAt, rawAt, q, seeker, lim);
    RawBytesAdd(t, root, m, rawAt, q, seeker, lim);
    hide Image, Outside, Kept;
    ImageData(s, t, root, va, m, q, strAt, rawAt, {}, seeker, lim, seeker);
  }

  lemma RawBytesLater(s: seq<Byte>, t: seq<Byte>, root: Directory, va: nat, m: Marks, strAt: map<Path, int>,
                      rawAt: map<Path, int>, q: Path, seeker: nat, lim: nat)
    requires Laid(root, m) && Image(s, root, va, m, strAt, rawAt, {}, seeker) && q in m.dataAt && 0 <= m.dataAt[q]
    requires Outside(s, t, m.dataAt[q], m.dataAt[q] + 4, seeker) && seeker <= lim <= |t|
    ensures RawBytes(t, root, m, rawAt, lim)
  {
    hide Headers, EntryWords, DataWords, Strings, RawBytes, IsDir, DirAt, IsEntry, EntryAt, DirsPlaced, EntriesPlaced;
    assert Kept(s, t, m.dataEnd, seeker);
    RawBytesKept(s, t, root, m, rawAt, seeker, lim);
  }

  ghost predicate RawsDone(s: seq<Byte>, root: Directory, va: nat, m: Marks, leaves: seq<Path>, n: nat,
                           strAt: map<Path, int>, from: nat, rawAt: map<Path, int>, seeker: nat)
    requires n <= |leaves|
  {
    && Laid(root, m) && Image(s, root, va, m, strAt, rawAt, {}, seeker)
    && QueueDone(Raws, root, leaves, n, from, seeker, rawAt)
  }

  lemma RawsDoneReady(s: seq<Byte>, root: Directory, va: nat, m: Marks, leaves: seq<Path>, n: nat,
                      strAt: map<Path, int>, from: nat, rawAt: map<Path, int>, seeker: nat, limit: nat)
    requires n < |leaves| && RawsDone(s, root, va, m, leaves, n, strAt, from, rawAt, seeker)
    requires Fits(Raws, root, leaves, from, limit) && AllData(root, leaves) && leaves[n] in m.dataAt
    ensures Laid(root, m) && Image(s, root, va, m, strAt, rawAt, {}, seeker)
    ensures IsEntry(root, leaves[n]) && EntryAt(root, leaves[n]).child.Data?
    ensures seeker + Align(|EntryAt(root, leaves[n]).child.bytes|, 8) <= limit
    ensures |EntryAt(root, leaves[n]).child.bytes| <= Align(|EntryAt(root, leaves[n]).child.bytes|, 8)
    ensures 0 <= m.dataAt[leaves[n]] && m.dataAt[leaves[n]] + 16 <= seeker
  {
    hide IsDir, DirAt, IsEntry, EntryAt, OwnPaths, DirsPlaced, EntriesPlaced;
    OwnStep(Raws, root, leaves, n);
  }

  lemma RawsDoneNext(t: seq<Byte>, root: Directory, va: nat, m: Marks, leaves: seq<Path>, n: nat,
                     strAt: map<Path, int>, from: nat, rawAt: map<Path, int>, seeker: nat, s: seq<Byte>, q: Path,
                     lim: nat)
    requires n < |leaves| && RawsDone(s, root, va, m, leaves, n, strAt, from, rawAt, seeker) && q == leaves[n]
    requires IsEntry(root, q) && EntryAt(root, q).child.Data?
        && lim == seeker + Align(|EntryAt(root, q).child.bytes|, 8)
    requires Image(t, root, va, m, strAt, rawAt[q := seeker], {}, lim)
    ensures RawsDone(t, root, va, m, leaves, n + 1, strAt, from, rawAt[q := seeker], lim)
  {
    hide QueueDone, IsDir, DirAt, IsEntry, EntryAt, Laid, Image, OwnEntry, Align;
    QueueNext(Raws, root, leaves, n, from, seeker, rawAt);
    RawWeight(EntryAt(root, q));
  }

  lemma RawWeight(e: Entry)
    requires e.child.Data?
    ensures OwnEntry(Raws, e) == Align(|e.child.bytes|, 8)
  {
  }

  method WriteNextRaw(sec: array<Byte>, root: Directory, va: nat, m: Marks, leaves: seq<Path>, n: nat,
                      ghost strAt: map<Path, int>, ghost from: nat, ghost rawAt: map<Path, int>, seeker: nat)
    returns (ghost rawAt': map<Path, int>, seeker': nat)
    requires n < |leaves| && RawsDone(sec[..], root, va, m, leaves, n, strAt, from, rawAt, seeker)
    requires AllData(root, leaves) && leaves[n] in m.dataAt && va + sec.Length < DWORD_LIMIT
    requires Fits(Raws, root, leaves, from, sec.Length)
    modifies sec
    ensures RawsDone(sec[..], root, va, m, leaves, n + 1, strAt, from, rawAt', seeker')
  {
    hide RawsDone, IsDir, DirAt, IsEntry, EntryAt, Laid, Image, Fits, Align, Kept, Outside;
    ghost var s := sec[..];
    RawsDoneReady(s, root, va, m, leaves, n, strAt, from, rawAt, seeker, sec.Length);
    var q := leaves[n];
    var bytes := EntryAt(root, q).child.bytes;
    seeker' := seeker + Align(|bytes|, 8);
    PokeData(sec, va, m.dataAt[q], bytes, seeker);
    DataPlaceAdded(s, sec[..], root, va, m, strAt, rawAt, q, seeker, seeker');
    RawsDoneNext(sec[..], root, va, m, leaves, n, strAt, from, rawAt, seeker, s, q, seeker');
    rawAt' := rawAt[q := seeker];
  }

  /** The fourth phase. */
  method WriteRaws(sec: array<Byte>, root: Directory, va: nat, m: Marks, leaves: seq<Path>, ghost strAt: map<Path, int>,
                   from: nat)
    returns (ghost rawAt: map<Path, int>, seeker: nat)
    requires RawsDone(sec[..], root, va, m, leaves, 0, strAt, from, map[], from)
    requires AllData(root, leaves) && (forall q :: q in leaves ==> q in m.dataAt) && va + sec.Length < DWORD_LIMIT
    requires Fits(Raws, root, leaves, from, sec.Length)
    modifies sec
    ensures RawsDone(sec[..], root, va, m, leaves, |leaves|, strAt, from, rawAt, seeker)
  {
    hide RawsDone, Fits, AllData;
    rawAt, seeker := map[], from;
    var n := 0;
    while n < |leaves|
      invariant 0 <= n <= |leaves| && RawsDone(sec[..], root, va, m, leaves, n, strAt, from, rawAt, seeker)
    {
      rawAt, seeker := WriteNextRaw(sec, root, va, m, leaves, n, strAt, from, rawAt, seeker);
      n := n + 1;
    }
  }
}
