/**
 The section while it is being patched: which words hold their final values, and
 why a patch of one word leaves everything else as it was.
 */
module ResourceImage {
  import opened Bytes
  import opened ResourceTree
  import opened ResourceLayout
  import opened ResourceWriter

  /** Where the objects were written, and where the first two regions end. */
  datatype Marks = Marks(dirAt: map<Path, int>, entryAt: map<Path, int>, dataAt: map<Path, int>, dirsEnd: nat,
                         dataEnd: nat)

  /** Directories, then data entries, none overlapping another. */
  ghost predicate Laid(root: Directory, m: Marks) {
    && DirsPlaced(root, m.dirAt, m.dirsEnd) && EntriesPlaced(root, m.dirAt, m.entryAt)
    && (forall q :: q in m.dataAt ==> m.dirsEnd <= m.dataAt[q] && m.dataAt[q] + 16 <= m.dataEnd)
    && (forall q, q' :: q in m.dataAt && q' in m.dataAt && q != q' ==>
          m.dataAt[q] + 16 <= m.dataAt[q'] || m.dataAt[q'] + 16 <= m.dataAt[q])
    && m.dirsEnd <= m.dataEnd
  }

  ghost predicate Headers(s: seq<Byte>, root: Directory, m: Marks) {
    forall p :: p in m.dirAt ==> IsDir(root, p) && 0 <= m.dirAt[p] && HeaderAt(s, m.dirAt[p], DirAt(root, p))
  }

  /** The final offset word of an entry. */
  ghost function Target(m: Marks, q: Path, e: Entry): int {
    if e.child.Sub? then (if q in m.dirAt then HIGH_BIT + m.dirAt[q] else -1)
    else (if q in m.dataAt then m.dataAt[q] else -1)
  }

  /** Entries in `strAt` have their final name word, entries in `final` their final offset word. */
  ghost predicate EntryWords(s: seq<Byte>, root: Directory, m: Marks, strAt: map<Path, int>, final: set<Path>) {
    forall q :: q in m.entryAt ==> IsEntry(root, q) && EntryWord(s, m, strAt, final, q, EntryAt(root, q))
  }

  ghost predicate EntryWord(s: seq<Byte>, m: Marks, strAt: map<Path, int>, final: set<Path>, q: Path, e: Entry)
    requires q in m.entryAt
  {
    var at := m.entryAt[q];
    && 0 <= at && at + 8 <= |s|
    && Get32(s, at) == (if q in strAt then HIGH_BIT + strAt[q] else NameWord(e))
    && Get32(s, at + 4) == (if q in final then Target(m, q, e) else OffsetWord(e))
  }

  /** Data entries hold size and code page; those in `rawAt` also the address of their data. */
  ghost predicate DataWords(s: seq<Byte>, root: Directory, va: nat, m: Marks, rawAt: map<Path, int>) {
    forall q :: q in m.dataAt ==> IsEntry(root, q) && DataWord(s, va, m, rawAt, q, EntryAt(root, q))
  }

  ghost predicate DataWord(s: seq<Byte>, va: nat, m: Marks, rawAt: map<Path, int>, q: Path, e: Entry)
    requires q in m.dataAt
  {
    var at := m.dataAt[q];
    && e.child.Data? && 0 <= at && at + 16 <= |s|
    && Get32(s, at + 4) == |e.child.bytes| && Get32(s, at + 8) == e.child.codePage
    && (q in rawAt ==> Get32(s, at) == va + rawAt[q])
  }

  ghost predicate Strings(s: seq<Byte>, root: Directory, m: Marks, strAt: map<Path, int>, lim: nat) {
    forall q :: q in strAt ==>
      && IsEntry(root, q) && EntryAt(root, q).name.Str?
      && m.dataEnd <= strAt[q] && strAt[q] + 2 + 2 * |EntryAt(root, q).name.chars| <= lim
      && StringAt(s, strAt[q], EntryAt(root, q).name.chars)
  }

  ghost predicate RawBytes(s: seq<Byte>, root: Directory, m: Marks, rawAt: map<Path, int>, lim: nat) {
    forall q :: q in rawAt ==>
      && IsEntry(root, q) && EntryAt(root, q).child.Data?
      && m.dataEnd <= rawAt[q] && rawAt[q] + |EntryAt(root, q).child.bytes| <= lim <= |s|
      && s[rawAt[q]..rawAt[q] + |EntryAt(root, q).child.bytes|] == EntryAt(root, q).child.bytes
  }

  /** The section as far as it has been completed; nothing is written beyond `lim`. */
  ghost predicate Image(s: seq<Byte>, root: Directory, va: nat, m: Marks,
                        strAt: map<Path, int>, rawAt: map<Path, int>, final: set<Path>, lim: nat) {
    && m.dataEnd <= lim <= |s|
    && Headers(s, root, m) && EntryWords(s, root, m, strAt, final) && DataWords(s, root, va, m, rawAt)
    && Strings(s, root, m, strAt, lim) && RawBytes(s, root, m, rawAt, lim)
  }

  /** Of the bytes below `hi` only those from `x` to `y` may differ. */
  ghost predicate Outside(s: seq<Byte>, t: seq<Byte>, x: nat, y: nat, hi: nat) {
    Kept(s, t, 0, x) && Kept(s, t, y, hi)
  }

  /* ---------- writing beyond the limit ---------- */

  lemma StringKept(s: seq<Byte>, t: seq<Byte>, o: nat, chars: seq<Word>)
    requires StringAt(s, o, chars) && Kept(s, t, o, o + 2 + 2 * |chars|)
    ensures StringAt(t, o, chars)
  {
  }

  lemma HeadersKept(s: seq<Byte>, t: seq<Byte>, root: Directory, m: Marks)
    requires Laid(root, m) && Headers(s, root, m) && Kept(s, t, 0, m.dirsEnd)
    ensures Headers(t, root, m)
  {
    hide IsDir, DirAt, EntriesPlaced, HeaderAt;
    forall p | p in m.dirAt ensures IsDir(root, p) && 0 <= m.dirAt[p] && HeaderAt(t, m.dirAt[p], DirAt(root, p)) {
      assert End(root, m.dirAt, p) <= m.dirsEnd;
      HeaderKept(s, t, m.dirAt[p], DirAt(root, p));
    }
  }

  lemma EntryWordsKept(s: seq<Byte>, t: seq<Byte>, root: Directory, m: Marks, strAt: map<Path, int>, final: set<Path>)
    requires Laid(root, m) && EntryWords(s, root, m, strAt, final) && Kept(s, t, 0, m.dirsEnd)
    ensures EntryWords(t, root, m, strAt, final)
  {
    forall q | q in m.entryAt ensures IsEntry(root, q) && EntryWord(t, m, strAt, final, q, EntryAt(root, q)) {
      EntryInside(root, m.dirAt, m.entryAt, m.dirsEnd, q);
      assert EntryWord(s, m, strAt, final, q, EntryAt(root, q));
      hide IsDir, DirAt, EntryAt, IsEntry, Target, Laid, EntryWords;
      SameWord(s, t, m.entryAt[q]);
      SameWord(s, t, m.entryAt[q] + 4);
    }
  }

  lemma SameWord(s: seq<Byte>, t: seq<Byte>, at: nat)
    requires at + 4 <= |s| && Kept(s, t, at, at + 4)
    ensures at + 4 <= |t| && Get32(t, at) == Get32(s, at)
  {
  }

  lemma DataWordsKept(s: seq<Byte>, t: seq<Byte>, root: Directory, va: nat, m: Marks, rawAt: map<Path, int>)
    requires Laid(root, m) && DataWords(s, root, va, m, rawAt) && Kept(s, t, m.dirsEnd, m.dataEnd)
    ensures DataWords(t, root, va, m, rawAt)
  {
    hide IsDir, DirAt, EntryAt, IsEntry, DirsPlaced, EntriesPlaced;
    forall q | q in m.dataAt ensures IsEntry(root, q) && DataWord(t, va, m, rawAt, q, EntryAt(root, q)) {
      assert DataWord(s, va, m, rawAt, q, EntryAt(root, q));
      SameWord(s, t, m.dataAt[q]);
      SameWord(s, t, m.dataAt[q] + 4);
      SameWord(s, t, m.dataAt[q] + 8);
    }
  }

  lemma StringsKept(s: seq<Byte>, t: seq<Byte>, root: Directory, m: Marks, strAt: map<Path, int>, lim: nat, lim': nat)
    requires Strings(s, root, m, strAt, lim) && Kept(s, t, m.dataEnd, lim) && lim <= lim'
    ensures Strings(t, root, m, strAt, lim')
  {
    hide IsDir, DirAt, EntryAt, IsEntry, StringAt;
    forall q | q in strAt
      ensures IsEntry(root, q) && EntryAt(root, q).name.Str? && StringAt(t, strAt[q], EntryAt(root, q).name.chars)
    {
      StringKept(s, t, strAt[q], EntryAt(root, q).name.chars);
    }
  }

  lemma RawBytesKept(s: seq<Byte>, t: seq<Byte>, root: Directory, m: Marks, rawAt: map<Path, int>, lim: nat, lim': nat)
    requires RawBytes(s, root, m, rawAt, lim) && Kept(s, t, m.dataEnd, lim) && lim <= lim' <= |t|
    ensures RawBytes(t, root, m, rawAt, lim')
  {
    hide IsDir, DirAt, EntryAt, IsEntry;
    forall q | q in rawAt
      ensures IsEntry(root, q) && EntryAt(root, q).child.Data?
      ensures t[rawAt[q]..rawAt[q] + |EntryAt(root, q).child.bytes|] == EntryAt(root, q).child.bytes
    {
      var o, n := rawAt[q], |EntryAt(root, q).child.bytes|;
      assert t[o..o + n] == s[o..o + n];
    }
  }

  /* ---------- patching one word ---------- */

  lemma EntriesApart(root: Directory, m: Marks, q: Path, q': Path)
    requires Laid(root, m) && q in m.entryAt && q' in m.entryAt && q != q'
    ensures m.entryAt[q] + 8 <= m.entryAt[q'] || m.entryAt[q'] + 8 <= m.entryAt[q]
  {
    EntryInside(root, m.dirAt, m.entryAt, m.dirsEnd, q);
    EntryInside(root, m.dirAt, m.entryAt, m.dirsEnd, q');
    if Front(q) == Front(q') {
      SnocFrontLast(q);
      SnocFrontLast(q');
    }
  }

  lemma EntryOffHeader(root: Directory, m: Marks, q: Path, p: Path)
    requires Laid(root, m) && q in m.entryAt && p in m.dirAt
    ensures m.entryAt[q] + 8 <= m.dirAt[p] || m.dirAt[p] + 16 <= m.entryAt[q]
  {
    EntryInside(root, m.dirAt, m.entryAt, m.dirsEnd, q);
    hide IsDir, DirAt, EntriesPlaced;
    if Front(q) != p {
      assert End(root, m.dirAt, Front(q)) <= m.dirAt[p] || End(root, m.dirAt, p) <= m.dirAt[Front(q)];
      EndBeyond(root, m, p);
    }
  }

  lemma EndBeyond(root: Directory, m: Marks, p: Path)
    requires Laid(root, m) && p in m.dirAt
    ensures IsDir(root, p) && 0 <= m.dirAt[p] && m.dirAt[p] + 16 <= End(root, m.dirAt, p) <= m.dirsEnd
  {
  }

  lemma HeadersPatched(s: seq<Byte>, t: seq<Byte>, root: Directory, m: Marks, q: Path, x: nat)
    requires Laid(root, m) && Headers(s, root, m) && q in m.entryAt
    requires m.entryAt[q] <= x <= m.entryAt[q] + 4 && Outside(s, t, x, x + 4, m.dirsEnd)
    ensures Headers(t, root, m)
  {
    forall p | p in m.dirAt ensures IsDir(root, p) && 0 <= m.dirAt[p] && HeaderAt(t, m.dirAt[p], DirAt(root, p)) {
      EntryOffHeader(root, m, q, p);
      EndBeyond(root, m, p);
      hide IsDir, DirAt, Laid;
      assert HeaderAt(s, m.dirAt[p], DirAt(root, p));
      assert Kept(s, t, m.dirAt[p], m.dirAt[p] + 16);
      HeaderKept(s, t, m.dirAt[p], DirAt(root, p));
    }
  }

  lemma EntryWordsPatched(s: seq<Byte>, t: seq<Byte>, root: Directory, m: Marks, q: Path, x: nat,
                          strAt: map<Path, int>, final: set<Path>, strAt': map<Path, int>, final': set<Path>)
    requires Laid(root, m) && EntryWords(s, root, m, strAt, final) && q in m.entryAt
    requires m.entryAt[q] <= x <= m.entryAt[q] + 4 && Outside(s, t, x, x + 4, m.dirsEnd)
    requires EntryWord(t, m, strAt', final', q, EntryAt(root, q))
    requires forall q' :: q' != q ==> (q' in strAt' <==> q' in strAt) && (q' in strAt ==> strAt'[q'] == strAt[q'])
    requires forall q' :: q' != q ==> (q' in final' <==> q' in final)
    ensures EntryWords(t, root, m, strAt', final')
  {
    hide IsDir, IsEntry, DirAt, EntryAt, EntryWord, Laid;
    forall q' | q' in m.entryAt ensures IsEntry(root, q') && EntryWord(t, m, strAt', final', q', EntryAt(root, q')) {
      assert EntryWord(s, m, strAt, final, q', EntryAt(root, q'));
      if q' != q {
        EntriesApart(root, m, q, q');
        InDirs(root, m, q');
        OtherEntry(s, t, m, q, x, strAt, final, strAt', final', q', EntryAt(root, q'));
      }
    }
  }

  lemma InDirs(root: Directory, m: Marks, q: Path)
    requires Laid(root, m) && q in m.entryAt
    ensures 0 <= m.entryAt[q] && m.entryAt[q] + 8 <= m.dirsEnd
  {
    EntryInside(root, m.dirAt, m.entryAt, m.dirsEnd, q);
  }

  lemma OtherEntry(s: seq<Byte>, t: seq<Byte>, m: Marks, q: Path, x: nat,
                   strAt: map<Path, int>, final: set<Path>, strAt': map<Path, int>, final': set<Path>, q': Path,
                   e: Entry)
    requires q in m.entryAt && q' in m.entryAt && EntryWord(s, m, strAt, final, q', e)
    requires m.entryAt[q] <= x <= m.entryAt[q] + 4 && Outside(s, t, x, x + 4, m.dirsEnd)
    requires m.entryAt[q] + 8 <= m.entryAt[q'] || m.entryAt[q'] + 8 <= m.entryAt[q]
    requires m.entryAt[q'] + 8 <= m.dirsEnd
    requires (q' in strAt' <==> q' in strAt) && (q' in strAt ==> strAt'[q'] == strAt[q'])
        && (q' in final' <==> q' in final)
    ensures EntryWord(t, m, strAt', final', q', e)
  {
    hide Target;
    SameWord(s, t, m.entryAt[q']);
    SameWord(s, t, m.entryAt[q'] + 4);
  }

  /** After a word of entry `q` has been given its final value, and perhaps a string appended. */
  lemma ImageEntry(s: seq<Byte>, t: seq<Byte>, root: Directory, va: nat, m: Marks, q: Path, x: nat,
                   strAt: map<Path, int>, rawAt: map<Path, int>, final: set<Path>, lim: nat,
                   strAt': map<Path, int>, final': set<Path>, lim': nat)
    requires Laid(root, m) && Image(s, root, va, m, strAt, rawAt, final, lim) && q in m.entryAt
    requires m.entryAt[q] <= x <= m.entryAt[q] + 4 && Outside(s, t, x, x + 4, lim) && lim <= lim' <= |t|
    requires EntryWord(t, m, strAt', final', q, EntryAt(root, q))
    requires forall q' :: q' != q ==> (q' in strAt' <==> q' in strAt) && (q' in strAt ==> strAt'[q'] == strAt[q'])
    requires forall q' :: q' != q ==> (q' in final' <==> q' in final)
    requires Strings(t, root, m, strAt', lim')
    ensures Image(t, root, va, m, strAt', rawAt, final', lim')
  {
    InDirs(root, m, q);
    assert Kept(s, t, m.dirsEnd, m.dataEnd) && Kept(s, t, m.dataEnd, lim) && Outside(s, t, x, x + 4, m.dirsEnd);
    hide Laid, Headers, EntryWords, EntryWord, DataWords, Strings, RawBytes, Kept, Outside, IsDir, IsEntry, EntryAt,
        DirAt;
    HeadersPatched(s, t, root, m, q, x);
    EntryWordsPatched(s, t, root, m, q, x, strAt, final, strAt', final');
    DataWordsKept(s, t, root, va, m, rawAt);
    RawBytesKept(s, t, root, m, rawAt, lim, lim');
  }

  /** After data has been appended and the address in data entry `q` filled in. */
  lemma ImageData(s: seq<Byte>, t: seq<Byte>, root: Directory, va: nat, m: Marks, q: Path,
                  strAt: map<Path, int>, rawAt: map<Path, int>, final: set<Path>, lim: nat, lim': nat, at: int)
    requires Laid(root, m) && Image(s, root, va, m, strAt, rawAt, final, lim) && q in m.dataAt && 0 <= m.dataAt[q]
    requires Outside(s, t, m.dataAt[q], m.dataAt[q] + 4, lim) && lim <= lim' <= |t|
    requires m.dataAt[q] + 4 <= |t| && Get32(t, m.dataAt[q]) == va + at
    requires RawBytes(t, root, m, rawAt[q := at], lim')
    ensures Image(t, root, va, m, strAt, rawAt[q := at], final, lim')
  {
    assert Kept(s, t, 0, m.dirsEnd) && Kept(s, t, m.dataEnd, lim);
    assert Outside(s, t, m.dataAt[q], m.dataAt[q] + 4, m.dataEnd);
    hide Laid, Headers, EntryWords, Strings, RawBytes, DataWords, Kept, Outside;
    HeadersKept(s, t, root, m);
    EntryWordsKept(s, t, root, m, strAt, final);
    StringsKept(s, t, root, m, strAt, lim, lim');
    DataWordsPatched(s, t, root, va, m, q, rawAt, at);
  }

  lemma DataWordsPatched(s: seq<Byte>, t: seq<Byte>, root: Directory, va: nat, m: Marks, q: Path, rawAt: map<Path, int>,
                         at: int)
    requires Laid(root, m) && DataWords(s, root, va, m, rawAt) && q in m.dataAt && 0 <= m.dataAt[q]
    requires Outside(s, t, m.dataAt[q], m.dataAt[q] + 4, m.dataEnd) && m.dataAt[q] + 4 <= |t|
        && Get32(t, m.dataAt[q]) == va + at
    ensures DataWords(t, root, va, m, rawAt[q := at])
  {
    hide IsDir, DirAt, EntryAt, IsEntry, DirsPlaced, EntriesPlaced;
    var rawAt' := rawAt[q := at];
    forall q' | q' in m.dataAt ensures IsEntry(root, q') && DataWord(t, va, m, rawAt', q', EntryAt(root, q')) {
      assert DataWord(s, va, m, rawAt, q', EntryAt(root, q'));
      if q' != q {
        SameWord(s, t, m.dataAt[q']);
      }
      SameWord(s, t, m.dataAt[q'] + 4);
      SameWord(s, t, m.dataAt[q'] + 8);
    }
  }
}
