/**
 `SetOffsets`, the whole of `WriteRsrcSec`, and the theorem that the scanner gives
 back the tree that was written.
 */
module ResourceRoundTrip {
  import opened Numbers
  import opened Bytes
  import opened ResourceTree
  import opened ResourceLayout
  import opened ResourceWriter
  import opened ResourceImage
  import opened ResourceSection
  import ResourceScan
  import ResourceEditor

  /** Every entry's child has been written somewhere. */
  ghost predicate Closed(root: Directory, m: Marks) {
    && [] in m.dirAt
    && forall q :: q in m.entryAt ==>
         IsEntry(root, q) && (if EntryAt(root, q).child.Sub? then q in m.dirAt else q in m.dataAt)
  }

  /** `q` names an entry somewhere below directory `p`. */
  predicate Under(p: Path, q: Path) {
    |p| < |q| && q[..|p|] == p
  }

  lemma {:induction false} OnTheWay(root: Directory, p: Path, q: Path)
    requires IsEntry(root, q) && Under(p, q)
    ensures IsDir(root, p) && 0 <= q[|p|] < |DirAt(root, p).entries|
    decreases |q|
  {
    if |q| == |p| + 1 {
      assert Front(q) == p;
    } else {
      assert Front(q)[..|p|] == p;
      OnTheWay(root, p, Front(q));
    }
  }

  lemma OffsetSet(s: seq<Byte>, t: seq<Byte>, root: Directory, va: nat, m: Marks, q: Path,
                  strAt: map<Path, int>, rawAt: map<Path, int>, final: set<Path>, lim: nat)
    requires Laid(root, m) && Image(s, root, va, m, strAt, rawAt, final, lim) && q in m.entryAt && 0 <= m.entryAt[q]
    requires Outside(s, t, m.entryAt[q] + 4, m.entryAt[q] + 8, lim) && lim <= |t| && m.entryAt[q] + 8 <= lim
    requires IsEntry(root, q) && Get32(t, m.entryAt[q] + 4) == Target(m, q, EntryAt(root, q))
    ensures Image(t, root, va, m, strAt, rawAt, final + {q}, lim)
  {
    hide Laid, Headers, EntryWords, DataWords, RawBytes, Strings, StringAt, IsDir, DirAt, IsEntry, EntryAt, Target;
    WordOf(s, root, m, strAt, final, q);
    SameWord(s, t, m.entryAt[q]);
    assert Kept(s, t, m.dataEnd, lim) by {
      InDirs(root, m, q);
      DirsBeforeData(root, m);
    }
    StringsKept(s, t, root, m, strAt, lim, lim);
    ImageEntry(s, t, root, va, m, q, m.entryAt[q] + 4, strAt, rawAt, final, lim, strAt, final + {q}, lim);
  }

  lemma DirsBeforeData(root: Directory, m: Marks)
    requires Laid(root, m)
    ensures m.dirsEnd <= m.dataEnd
  {
  }

  lemma WordOf(s: seq<Byte>, root: Directory, m: Marks, strAt: map<Path, int>, final: set<Path>, q: Path)
    requires EntryWords(s, root, m, strAt, final) && q in m.entryAt
    ensures IsEntry(root, q) && EntryWord(s, m, strAt, final, q, EntryAt(root, q))
  {
  }

  /** What a position in the tree can contribute as an offset. */
  lemma TargetFits(s: seq<Byte>, root: Directory, va: nat, m: Marks, q: Path,
                   strAt: map<Path, int>, rawAt: map<Path, int>, final: set<Path>, lim: nat)
    requires Laid(root, m) && Closed(root, m) && Image(s, root, va, m, strAt, rawAt, final, lim) && q in m.entryAt
        && lim < HIGH_BIT
    ensures IsEntry(root, q) && 0 <= m.entryAt[q] && m.entryAt[q] + 8 <= lim <= |s|
    ensures if EntryAt(root, q).child.Sub? then q in m.dirAt && 0 <= m.dirAt[q] < HIGH_BIT && IsDir(root, q)
            else q in m.dataAt && 0 <= m.dataAt[q] < HIGH_BIT
    ensures 0 <= Target(m, q, EntryAt(root, q)) < DWORD_LIMIT
  {
    InDirs(root, m, q);
    hide IsEntry, EntryAt, DirAt;
    if q in m.dirAt {
      EndBeyond(root, m, q);
    }
  }

  /** Fills in the offset of one entry. */
  method SetOffset(sec: array<Byte>, root: Directory, ghost va: nat, m: Marks, q: Path,
                   ghost strAt: map<Path, int>, ghost rawAt: map<Path, int>, ghost final: set<Path>, ghost lim: nat)
    requires Laid(root, m) && Closed(root, m) && Image(sec[..], root, va, m, strAt, rawAt, final, lim)
    requires q in m.entryAt && IsEntry(root, q) && lim < HIGH_BIT
    modifies sec
    ensures Image(sec[..], root, va, m, strAt, rawAt, final + {q}, lim)
  {
    hide Laid, Closed, Image, IsDir, DirAt, IsEntry, EntryAt, Kept;
    ghost var s := sec[..];
    TargetFits(s, root, va, m, q, strAt, rawAt, final, lim);
    var at := m.entryAt[q] + 4;
    var word := if EntryAt(root, q).child.Sub? then HIGH_BIT + m.dirAt[q] else m.dataAt[q];
    Poke32(sec, at, word);
    PokedOutside(s, sec[..], at, lim);
    OffsetSet(s, sec[..], root, va, m, q, strAt, rawAt, final, lim);
  }

  lemma PokedOutside(s: seq<Byte>, t: seq<Byte>, at: nat, lim: nat)
    requires Kept(s, t, 0, at) && Kept(s, t, at + 4, |s|) && lim <= |s|
    ensures Outside(s, t, at, at + 4, lim) && |t| == |s|
  {
  }

  /** Everything below directory `p` reached through its first `i` entries has its offset. */
  ghost predicate OffsetsDone(m: Marks, p: Path, i: nat, final: set<Path>) {
    forall q :: q in m.entryAt && Under(p, q) && q[|p|] < i ==> q in final
  }

  lemma OffsetsNext(root: Directory, m: Marks, p: Path, i: nat, final: set<Path>, final': set<Path>)
    requires Closed(root, m) && IsDir(root, p) && i < |DirAt(root, p).entries|
    requires OffsetsDone(m, p, i, final) && final <= final' && Snoc(p, i) in final'
    requires DirAt(root, p).entries[i].child.Sub? ==>
      (IsDir(root, Snoc(p, i)) && OffsetsDone(m, Snoc(p, i), |DirAt(root, Snoc(p, i)).entries|, final'))
    ensures OffsetsDone(m, p, i + 1, final')
  {
    var r := Snoc(p, i);
    SnocEntry(root, p, i);
    forall q | q in m.entryAt && Under(p, q) && q[|p|] < i + 1 ensures q in final' {
      if q[|p|] == i {
        assert q[..|p| + 1] == r;
        if |q| > |r| {
          OnTheWay(root, r, q);
          hide IsDir, DirAt, IsEntry, EntryAt;
          assert Under(r, q);
        } else {
          assert q == r;
        }
      } else {
        OnTheWay(root, p, q);
      }
    }
  }

  lemma PathEntry(root: Directory, m: Marks, p: Path, i: nat)
    requires Laid(root, m) && p in m.dirAt && IsDir(root, p) && i < |DirAt(root, p).entries|
    ensures Snoc(p, i) in m.entryAt && IsEntry(root, Snoc(p, i))
        && EntryAt(root, Snoc(p, i)) == DirAt(root, p).entries[i]
    ensures m.entryAt[Snoc(p, i)] == m.dirAt[p] + 16 + 8 * i
  {
    SnocEntry(root, p, i);
  }

  /** `SetOffsets`: recursively from a directory downwards. */
  method SetOffsets(sec: array<Byte>, root: Directory, ghost va: nat, m: Marks, p: Path,
                    ghost strAt: map<Path, int>, ghost rawAt: map<Path, int>, ghost final: set<Path>, ghost lim: nat)
    returns (ghost final': set<Path>)
    requires Laid(root, m) && Closed(root, m) && Image(sec[..], root, va, m, strAt, rawAt, final, lim) && lim < HIGH_BIT
    requires IsDir(root, p) && p in m.dirAt
    modifies sec
    ensures Image(sec[..], root, va, m, strAt, rawAt, final', lim) && final <= final'
    ensures OffsetsDone(m, p, |DirAt(root, p).entries|, final')
    decreases DirAt(root, p), 1
  {
    final' := final;
    var i := 0;
    OffsetsNone(root, m, p, final);
    while i < |DirAt(root, p).entries|
      invariant 0 <= i <= |DirAt(root, p).entries|
      invariant Image(sec[..], root, va, m, strAt, rawAt, final', lim) && final <= final'
      invariant OffsetsDone(m, p, i, final')
    {
      hide Laid, Closed, Image, IsDir, DirAt, IsEntry, EntryAt, OffsetsDone;
      final' := SetOffsetBelow(sec, root, va, m, p, i, strAt, rawAt, final', lim);
      i := i + 1;
    }
  }

  lemma OffsetsNone(root: Directory, m: Marks, p: Path, final: set<Path>)
    requires Closed(root, m)
    ensures OffsetsDone(m, p, 0, final)
  {
    forall q | q in m.entryAt && Under(p, q) ensures q[|p|] >= 0 {
      OnTheWay(root, p, q);
    }
  }

  /** The loop body: one entry, and what is below it. */
  method SetOffsetBelow(sec: array<Byte>, root: Directory, ghost va: nat, m: Marks, p: Path, i: nat,
                        ghost strAt: map<Path, int>, ghost rawAt: map<Path, int>, ghost final: set<Path>,
                        ghost lim: nat)
    returns (ghost final': set<Path>)
    requires Laid(root, m) && Closed(root, m) && Image(sec[..], root, va, m, strAt, rawAt, final, lim) && lim < HIGH_BIT
    requires IsDir(root, p) && p in m.dirAt && i < |DirAt(root, p).entries| && OffsetsDone(m, p, i, final)
    modifies sec
    ensures Image(sec[..], root, va, m, strAt, rawAt, final', lim) && final <= final'
    ensures OffsetsDone(m, p, i + 1, final')
    decreases DirAt(root, p), 0
  {
    hide Laid, Closed, Image, IsDir, DirAt, IsEntry, EntryAt, OffsetsDone;
    var q := Snoc(p, i);
    PathEntry(root, m, p, i);
    ghost var s := sec[..];
    TargetFits(s, root, va, m, q, strAt, rawAt, final, lim);
    SnocEntry(root, p, i);
    SetOffset(sec, root, va, m, q, strAt, rawAt, final, lim);
    final' := final + {q};
    if EntryAt(root, q).child.Sub? {
      Deeper(root, p, i);
      final' := SetOffsets(sec, root, va, m, q, strAt, rawAt, final', lim);
    }
    OffsetsNext(root, m, p, i, final, final');
  }

  lemma Deeper(root: Directory, p: Path, i: nat)
    requires IsDir(root, p) && i < |DirAt(root, p).entries| && DirAt(root, p).entries[i].child.Sub?
    ensures IsDir(root, Snoc(p, i)) && (DirAt(root, p) decreases to DirAt(root, Snoc(p, i)))
  {
    SnocEntry(root, p, i);
    var d := DirAt(root, p);
    var e := d.entries[i];
    assert d decreases to e;
    assert e decreases to e.child.dir;
  }

  /* ---------- the finished section ---------- */

  /** Nothing is left to patch. */
  ghost predicate Complete(root: Directory, m: Marks, strAt: map<Path, int>, rawAt: map<Path, int>, final: set<Path>) {
    forall q :: q in m.entryAt ==>
      && q in final && IsEntry(root, q)
      && (EntryAt(root, q).name.Str? ==> q in strAt) && (EntryAt(root, q).child.Data? ==> q in rawAt)
  }

  lemma NameReads(s: seq<Byte>, root: Directory, m: Marks, q: Path, strAt: map<Path, int>, final: set<Path>, lim: nat)
    requires EntryWords(s, root, m, strAt, final) && Strings(s, root, m, strAt, lim) && q in m.entryAt
        && IsEntry(root, q)
    requires EntryAt(root, q).name.Str? ==> q in strAt
    requires EntryAt(root, q).name.Id? ==> q !in strAt
    ensures 0 <= m.entryAt[q] && m.entryAt[q] + 8 <= |s| && NameAt(s, m.entryAt[q], EntryAt(root, q).name)
  {
    WordOf(s, root, m, strAt, final, q);
    hide IsDir, DirAt, IsEntry, EntryAt, StringAt, Target;
  }

  lemma DataReads(s: seq<Byte>, root: Directory, va: nat, m: Marks, q: Path, rawAt: map<Path, int>, lim: nat)
    requires DataWords(s, root, va, m, rawAt) && RawBytes(s, root, m, rawAt, lim)
    requires q in m.dataAt && q in rawAt && IsEntry(root, q) && EntryAt(root, q).child.Data? && 0 <= m.dataAt[q]
    ensures DataAt(s, va, m.dataAt[q], EntryAt(root, q).child.bytes, EntryAt(root, q).child.codePage)
  {
    hide IsDir, DirAt, IsEntry, EntryAt;
    assert DataWord(s, va, m, rawAt, q, EntryAt(root, q));
  }

  lemma EntryReads(s: seq<Byte>, root: Directory, va: nat, m: Marks, q: Path,
                   strAt: map<Path, int>, rawAt: map<Path, int>, final: set<Path>, lim: nat)
    requires Laid(root, m) && Closed(root, m) && Image(s, root, va, m, strAt, rawAt, final, lim) && lim < HIGH_BIT
    requires Complete(root, m, strAt, rawAt, final) && q in m.entryAt && IsEntry(root, q)
    requires EntryAt(root, q).child.Sub? ==>
        q in m.dirAt && 0 <= m.dirAt[q] && Describes(s, va, m.dirAt[q], EntryAt(root, q).child.dir)
    ensures 0 <= m.entryAt[q] && m.entryAt[q] + 8 <= |s| && EntryDescribed(s, va, m.entryAt[q], EntryAt(root, q))
  {
    hide Laid, Closed, Headers, EntryWords, DataWords, Strings, RawBytes, IsDir, DirAt, IsEntry, EntryAt, NameAt,
        DataAt, Describes;
    TargetFits(s, root, va, m, q, strAt, rawAt, final, lim);
    OnlyNamed(s, root, m, strAt, lim, q);
    NameReads(s, root, m, q, strAt, final, lim);
    WordOf(s, root, m, strAt, final, q);
    if EntryAt(root, q).child.Data? {
      DataReads(s, root, va, m, q, rawAt, lim);
    }
  }

  lemma OnlyNamed(s: seq<Byte>, root: Directory, m: Marks, strAt: map<Path, int>, lim: nat, q: Path)
    requires Strings(s, root, m, strAt, lim)
    ensures IsEntry(root, q) && EntryAt(root, q).name.Id? ==> q !in strAt
  {
  }

  /** The finished block describes every directory at the place it was written. */
  lemma {:induction false} DirectoryReads(s: seq<Byte>, root: Directory, va: nat, m: Marks, p: Path,
                                          strAt: map<Path, int>, rawAt: map<Path, int>, final: set<Path>, lim: nat)
    requires Laid(root, m) && Closed(root, m) && Image(s, root, va, m, strAt, rawAt, final, lim) && lim < HIGH_BIT
    requires Complete(root, m, strAt, rawAt, final) && p in m.dirAt && IsDir(root, p)
    ensures 0 <= m.dirAt[p] && Describes(s, va, m.dirAt[p], DirAt(root, p))
    decreases DirAt(root, p)
  {
    hide Laid, Closed, Headers, EntryWords, DataWords, Strings, RawBytes, Complete, IsDir, DirAt, IsEntry, EntryAt;
    var d := DirAt(root, p);
    HeaderReads(s, root, m, p);
    forall i | 0 <= i < |d.entries| ensures EntryDescribed(s, va, m.dirAt[p] + 16 + 8 * i, d.entries[i]) {
      var q := Snoc(p, i);
      PathEntry(root, m, p, i);
      SnocEntry(root, p, i);
      TargetFits(s, root, va, m, q, strAt, rawAt, final, lim);
      if d.entries[i].child.Sub? {
        Deeper(root, p, i);
        DirectoryReads(s, root, va, m, q, strAt, rawAt, final, lim);
      }
      hide Describes, EntryDescribed, Image;
      EntryReads(s, root, va, m, q, strAt, rawAt, final, lim);
    }
  }

  lemma HeaderReads(s: seq<Byte>, root: Directory, m: Marks, p: Path)
    requires Laid(root, m) && Headers(s, root, m) && m.dataEnd <= |s| && p in m.dirAt && IsDir(root, p)
    ensures 0 <= m.dirAt[p] && HeaderAt(s, m.dirAt[p], DirAt(root, p))
    ensures m.dirAt[p] + 16 + 8 * |DirAt(root, p).entries| <= |s|
  {
    EndBeyond(root, m, p);
  }

  /* ---------- the whole writer ---------- */

  lemma {:induction false} LeafCount(root: Directory, leaves: seq<Path>)
    requires AllEntries(root, leaves) && AllData(root, leaves)
    ensures OwnPaths(Leaves, root, leaves) == 16 * |leaves|
  {
    if leaves != [] {
      LeafCount(root, leaves[..|leaves| - 1]);
    }
  }

  lemma {:induction false} DirsAligned(d: Directory)
    ensures Aligned(Weight(Dirs, d))
    decreases d, 1
  {
    EntriesAligned(d.entries);
  }

  lemma {:induction false} EntriesAligned(es: seq<Entry>)
    ensures Aligned(WeightEntries(Dirs, es))
    decreases es, 0
  {
    if es != [] {
      EntriesAligned(es[..|es| - 1]);
      EntryAligned(es[|es| - 1]);
    }
  }

  lemma {:induction false} EntryAligned(e: Entry)
    ensures Aligned(WeightEntry(Dirs, e))
    decreases e, 2
  {
    if e.child.Sub? {
      DirsAligned(e.child.dir);
    }
  }

  ghost predicate InMap(qs: seq<Path>, at: map<Path, int>) {
    forall q :: q in qs ==> q in at
  }

  /** What the first phase hands to the later ones. */
  lemma QueuesReady(s: seq<Byte>, root: Directory, dirAt: map<Path, int>, entryAt: map<Path, int>,
                    seeker: nat, leaves: seq<Path>, names: seq<Path>)
    requires Progress(s, root, seeker, dirAt, entryAt, [], leaves, names) && seeker == Weight(Dirs, root)
    ensures AllEntries(root, leaves) && AllEntries(root, names) && AllData(root, leaves) && AllNamed(root, names)
    ensures 16 * |leaves| == Weight(Leaves, root)
    ensures OwnPaths(Names, root, names) == Weight(Names, root) && OwnPaths(Raws, root, leaves) == Weight(Raws, root)
    ensures forall q :: q in names ==> q in entryAt
    ensures [] in dirAt && dirAt[[]] == 0
    ensures forall q :: q in entryAt ==>
      (IsEntry(root, q) && (if EntryAt(root, q).child.Sub? then q in dirAt else q in leaves)
       && (EntryAt(root, q).name.Str? ==> q in names))
  {
    hide DirsPlaced, EntriesPlaced, Written, IsDir, DirAt, IsEntry, EntryAt;
    LeafCount(root, leaves);
  }

  lemma LeavesStart(s: seq<Byte>, root: Directory, va: nat, m: Marks, leaves: seq<Path>)
    requires Laid(root, m) && Image(s, root, va, m, map[], map[], {}, m.dataEnd) && m.dataEnd == m.dirsEnd
    ensures LeavesDone(s, root, va, m, leaves, 0)
  {
    hide Laid, Image;
  }

  lemma NamesStart(s: seq<Byte>, root: Directory, va: nat, m: Marks, leaves: seq<Path>, names: seq<Path>)
    requires LeavesDone(s, root, va, m, leaves, |leaves|) && AllEntries(root, names) && m.dirsEnd == Weight(Dirs, root)
    ensures NamesDone(s, root, va, m, names, 0, map[], m.dataEnd) && m.dataEnd % 4 == 0
    ensures InMap(leaves, m.dataAt)
  {
    hide Laid, Image, IsEntry, EntryAt;
    DirsAligned(root);
  }

  lemma RawsStart(s: seq<Byte>, root: Directory, va: nat, m: Marks, leaves: seq<Path>, names: seq<Path>,
                  strAt: map<Path, int>, from: nat)
    requires NamesDone(s, root, va, m, names, |names|, strAt, from) && AllEntries(root, leaves)
    ensures RawsDone(s, root, va, m, leaves, 0, strAt, from, map[], from)
    ensures Spread(Names, root, strAt, m.dataEnd, from) && from == m.dataEnd + OwnPaths(Names, root, names)
    ensures InMap(names, strAt)
  {
    hide Laid, Image, IsDir, DirAt, IsEntry, EntryAt, Within, Apart, AllEntries, OnGrid, OwnPaths;
    assert names[..|names|] == names && leaves[..0] == [];
    NothingYet(root, from);
  }

  lemma NothingYet(root: Directory, from: nat)
    ensures AllEntries(root, []) && OwnPaths(Raws, root, []) == 0 && Spread(Raws, root, map[], from, from)
    ensures OnGrid(Raws, 0)
  {
  }

  lemma OffsetsReady(s: seq<Byte>, root: Directory, va: nat, m: Marks, leaves: seq<Path>,
                     strAt: map<Path, int>, from: nat, rawAt: map<Path, int>, end: nat)
    requires RawsDone(s, root, va, m, leaves, |leaves|, strAt, from, rawAt, end)
    ensures Laid(root, m) && Image(s, root, va, m, strAt, rawAt, {}, end)
    ensures Spread(Raws, root, rawAt, from, end) && AllEntries(root, leaves)
        && end == from + OwnPaths(Raws, root, leaves)
    ensures InMap(leaves, rawAt)
  {
    assert leaves[..|leaves|] == leaves;
    hide Laid, Image, IsDir, DirAt, IsEntry, EntryAt, Spread;
  }

  lemma AllComplete(root: Directory, m: Marks, leaves: seq<Path>, names: seq<Path>,
                    strAt: map<Path, int>, rawAt: map<Path, int>, final: set<Path>)
    requires InMap(names, strAt) && InMap(leaves, rawAt)
    requires OffsetsDone(m, [], |root.entries|, final)
    requires forall q :: q in m.entryAt ==>
      (IsEntry(root, q) && (if EntryAt(root, q).child.Sub? then q in m.dirAt else q in leaves)
       && (EntryAt(root, q).name.Str? ==> q in names))
    ensures Complete(root, m, strAt, rawAt, final)
  {
    forall q | q in m.entryAt ensures q in final {
      assert q[..0] == [];
      OnTheWay(root, [], q);
    }
    hide IsDir, DirAt, IsEntry, EntryAt;
  }

  lemma IsClosed(root: Directory, m: Marks, leaves: seq<Path>)
    requires InMap(leaves, m.dataAt) && [] in m.dirAt
    requires forall q :: q in m.entryAt ==>
      (IsEntry(root, q) && (if EntryAt(root, q).child.Sub? then q in m.dirAt else q in leaves))
    ensures Closed(root, m)
  {
    hide IsDir, DirAt, IsEntry, EntryAt;
  }

  /** Where the writer put the objects of a tree, and where the last two regions end. */
  datatype Placement = Placement(marks: Marks, strAt: map<Path, int>, namesEnd: nat, rawAt: map<Path, int>,
                                 final: set<Path>, end: nat)

  /** Every object of the tree has its place: each directory, each entry with its final words, a data
      entry and raw data for each leaf, and a string for each entry known by a string. */
  ghost predicate EverythingPlaced(root: Directory, p: Placement) {
    && (forall d :: IsDir(root, d) ==> d in p.marks.dirAt)
    && forall q :: IsEntry(root, q) ==>
         && q in p.marks.entryAt && q in p.final
         && (EntryAt(root, q).child.Data? ==> q in p.marks.dataAt && q in p.rawAt)
         && (EntryAt(root, q).name.Str? ==> q in p.strAt)
  }

  /** The four regions in the block: all objects of the tree are at their places with their final
      contents, one region after the other, objects apart within each, all within the size the editor
      computes. */
  ghost predicate Regions(s: seq<Byte>, root: Directory, va: nat, p: Placement) {
    && EverythingPlaced(root, p)
    && Laid(root, p.marks) && Image(s, root, va, p.marks, p.strAt, p.rawAt, p.final, p.end)
    && p.marks.dataEnd % 4 == 0
    && Spread(Names, root, p.strAt, p.marks.dataEnd, p.namesEnd) && p.marks.dataEnd <= p.namesEnd
    && Spread(Raws, root, p.rawAt, p.namesEnd, p.end) && p.namesEnd <= p.end <= SizeOf(root)
  }

  lemma {:induction false} DirPlacedAt(root: Directory, m: Marks, p: Path)
    requires Laid(root, m) && Closed(root, m) && IsDir(root, p)
    ensures p in m.dirAt
    decreases |p|
  {
    hide Laid, DirAt, EntryAt;
    if p != [] {
      EntryPlacedAt(root, m, p);
    }
  }

  lemma {:induction false} EntryPlacedAt(root: Directory, m: Marks, q: Path)
    requires Laid(root, m) && Closed(root, m) && IsEntry(root, q)
    ensures q in m.entryAt
    decreases |q|, 0
  {
    DirPlacedAt(root, m, Front(q));
    hide Closed, IsDir, DirAt, EntryAt;
  }

  /** A finished writer has left nothing of the tree out. */
  lemma NothingLeftOut(root: Directory, p: Placement)
    requires Laid(root, p.marks) && Closed(root, p.marks) && Complete(root, p.marks, p.strAt, p.rawAt, p.final)
    ensures EverythingPlaced(root, p)
  {
    hide Laid, IsDir, DirAt, IsEntry, EntryAt;
    forall d | IsDir(root, d) ensures d in p.marks.dirAt {
      DirPlacedAt(root, p.marks, d);
    }
    forall q | IsEntry(root, q) ensures q in p.marks.entryAt {
      EntryPlacedAt(root, p.marks, q);
    }
  }

  /** The state between the first phase and the others. */
  ghost predicate FirstPhaseDone(s: seq<Byte>, root: Directory, va: nat, m: Marks, leaves: seq<Path>,
                                 names: seq<Path>) {
    && Laid(root, m) && Image(s, root, va, m, map[], map[], {}, m.dataEnd)
        && m.dataEnd == m.dirsEnd == Weight(Dirs, root)
    && AllEntries(root, leaves) && AllEntries(root, names) && AllData(root, leaves) && AllNamed(root, names)
    && 16 * |leaves| == Weight(Leaves, root)
    && OwnPaths(Names, root, names) == Weight(Names, root) && OwnPaths(Raws, root, leaves) == Weight(Raws, root)
    && (forall q :: q in names ==> q in m.entryAt) && [] in m.dirAt && m.dirAt[[]] == 0
    && forall q :: q in m.entryAt ==>
         (IsEntry(root, q) && (if EntryAt(root, q).child.Sub? then q in m.dirAt else q in leaves)
          && (EntryAt(root, q).name.Str? ==> q in names))
  }

  /** The phases after the first. */
  method WriteRest(sec: array<Byte>, root: Directory, va: nat, m0: Marks, leaves: seq<Path>, names: seq<Path>)
    returns (ghost placed: Placement)
    requires FirstPhaseDone(sec[..], root, va, m0, leaves, names)
    requires Storable(root) && SizeOf(root) <= sec.Length < HIGH_BIT && va + sec.Length < DWORD_LIMIT
    modifies sec
    ensures Describes(sec[..], va, 0, root)
    ensures Regions(sec[..], root, va, placed)
  {
    hide IsDir, DirAt, IsEntry, EntryAt, Storable, Laid, Image, LeavesDone, NamesDone, RawsDone, Closed, Complete,
         OffsetsDone, Spread, Describes, AllData, AllNamed, AllEntries, OwnPaths, Weight, SizeOf, EverythingPlaced;
    RegionsFit(root);
    LeavesStart(sec[..], root, va, m0, leaves);
    var marks := WriteLeaves(sec, root, va, m0, leaves);
    NamesStart(sec[..], root, va, marks, leaves, names);
    var strAt, from := WriteNames(sec, root, va, marks, names);
    RawsStart(sec[..], root, va, marks, leaves, names, strAt, from);
    var rawAt, end := WriteRaws(sec, root, va, marks, leaves, strAt, from);
    OffsetsReady(sec[..], root, va, marks, leaves, strAt, from, rawAt, end);
    IsClosed(root, marks, leaves);
    RootIsDir(root);
    ghost var final := SetOffsets(sec, root, va, marks, [], strAt, rawAt, {}, end);
    AllComplete(root, marks, leaves, names, strAt, rawAt, final);
    DirectoryReads(sec[..], root, va, marks, [], strAt, rawAt, final, end);
    placed := Placement(marks, strAt, from, rawAt, final, end);
    NothingLeftOut(root, placed);
  }

  lemma RootIsDir(root: Directory)
    ensures IsDir(root, []) && DirAt(root, []) == root
  {
  }

  /** `WriteRsrcSec` into the section's part of the image.  A section offset must leave the high
      bit free and a virtual address must fit 32 bits. */
  method WriteRsrcSec(sec: array<Byte>, root: Directory, va: nat)
    returns (ghost placed: Placement)
    requires Storable(root) && SizeOf(root) <= sec.Length < HIGH_BIT && va + sec.Length < DWORD_LIMIT
    modifies sec
    ensures Describes(sec[..], va, 0, root)
    ensures Regions(sec[..], root, va, placed)
  {
    hide IsDir, DirAt, IsEntry, EntryAt, Storable, Progress, Laid, Image, LeavesDone, NamesDone, RawsDone, Closed,
        Complete, OffsetsDone, Spread, Describes, AllData, AllNamed, AllEntries, OwnPaths, Weight, SizeOf, Regions;
    RegionsFit(root);
    var dirsEnd, dirAt, entryAt, leaves, names := WriteDirectories(sec, root);
    QueuesReady(sec[..], root, dirAt, entryAt, dirsEnd, leaves, names);
    ImageStart(sec[..], root, va, dirAt, entryAt, dirsEnd, leaves, names);
    var marks := Marks(dirAt, entryAt, map[], dirsEnd, dirsEnd);
    placed := WriteRest(sec, root, va, marks, leaves, names);
  }

  /** `GetSize`. */
  method GetSize(d: Directory) returns (size: nat)
    ensures size == SizeOf(d)
    decreases d, 1
  {
    size := 16;
    for i := 0 to |d.entries|
      invariant size == 16 + SizeEntries(d.entries[..i])
    {
      assert d.entries[..i + 1][..i] == d.entries[..i];
      var own := GetEntrySize(d.entries[i]);
      size := size + own;
    }
    assert d.entries[..|d.entries|] == d.entries;
  }

  method GetEntrySize(e: Entry) returns (size: nat)
    ensures size == SizeEntry(e)
    decreases e, 0
  {
    size := 8;
    if e.name.Str? {
      size := size + 4 + (|e.name.chars| + 1) * 2;
    }
    match e.child
    case Sub(dir) =>
      var below := GetSize(dir);
      size := size + below;
    case Data(bytes, _) =>
      size := size + 16 + Align(|bytes|, 8);
  }

  /** Writing a tree into a block of `GetSize` bytes and scanning it gives the tree back, whatever
      the block held before.  `base` is where the section lies in the image. */
  method SaveAndLoad(root: Directory, va: nat, base: nat, fill: Byte) returns (ok: bool, r: Directory)
    requires Storable(root) && SizeOf(root) < HIGH_BIT && va + SizeOf(root) < DWORD_LIMIT
    ensures ok && r == root
  {
    hide Storable, SizeOf, Describes, Regions;
    var size := GetSize(root);
    var sec := new Byte[size](i => fill);
    ghost var placed := WriteRsrcSec(sec, root, va);
    ok, r := ResourceScan.ScanDirectory(sec[..], va, base, base + size, 0, root);
  }

  /** From the tree of an executable through any edits to a section and back: the scanned tree maps every key to
      what its last edit says, and all others to what they were. A tree that is too big is not written. */
  method EditAndReload(root: Directory, edits: seq<ResourceEditor.Edit>, va: nat, base: nat, fill: Byte)
    returns (ok: bool, fits: bool, r: Directory)
    requires ResourceEditor.WellFormed(root, 2) && Storable(root)
    requires forall e :: e in edits ==> ResourceEditor.SoundEdit(e)
    ensures ResourceEditor.Edited(root, edits, r) && (fits ==> ok)
    ensures fits == (ResourceEditor.Small(r) && SizeOf(r) < HIGH_BIT && va + SizeOf(r) < DWORD_LIMIT)
  {
    hide Storable, SizeOf, Describes, Regions, ResourceEditor.Edited, ResourceEditor.WellFormed, ResourceEditor.Small;
    var editor := ResourceEditor.Run(root, edits);
    r := editor.root;
    ok, fits := false, ResourceEditor.Small(r) && SizeOf(r) < HIGH_BIT && va + SizeOf(r) < DWORD_LIMIT;
    if fits {
      ok, r := SaveAndLoad(editor.root, va, base, fill);
    }
  }
}
