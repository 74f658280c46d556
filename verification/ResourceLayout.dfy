/**
 What a resource section must contain: sizes, the reader's view of a directory
 in a byte block, and the paths by which the writer refers to tree objects.
 */
module ResourceLayout {
  import opened Numbers
  import opened Bytes
  import opened ResourceTree

  /* A directory header is 16 bytes, a directory entry 8, a data entry 16. */

  function NameSize(chars: seq<Word>): nat {
    Align(2 + 2 * |chars|, 4)
  }

  /* ---------- sizes ---------- */

  /** `GetSize`: what the editor allocates for a directory and everything below it. */
  function SizeOf(d: Directory): nat
    decreases d, 1
  {
    16 + SizeEntries(d.entries)
  }

  function SizeEntries(es: seq<Entry>): nat
    decreases es, 0
  {
    if es == [] then 0 else SizeEntries(es[..|es| - 1]) + SizeEntry(es[|es| - 1])
  }

  function SizeEntry(e: Entry): nat
    decreases e, 2
  {
    8
    + (if e.name.Str? then 4 + (|e.name.chars| + 1) * 2 else 0)
    + (match e.child case Sub(dir) => SizeOf(dir) case Data(bytes, _) => 16 + Align(|bytes|, 8))
  }

  /** The four regions of the section. */
  datatype Region = Dirs | Leaves | Names | Raws

  /** What one entry itself puts into a region. */
  function OwnEntry(k: Region, e: Entry): nat {
    match k
    case Dirs => 8
    case Leaves => if e.child.Data? then 16 else 0
    case Names => if e.name.Str? then NameSize(e.name.chars) else 0
    case Raws => if e.child.Data? then Align(|e.child.bytes|, 8) else 0
  }

  /** What a directory and everything below it puts into a region. */
  function Weight(k: Region, d: Directory): nat
    decreases d, 1
  {
    (if k == Dirs then 16 else 0) + WeightEntries(k, d.entries)
  }

  function WeightEntries(k: Region, es: seq<Entry>): nat
    decreases es, 0
  {
    if es == [] then 0 else WeightEntries(k, es[..|es| - 1]) + WeightEntry(k, es[|es| - 1])
  }

  function WeightEntry(k: Region, e: Entry): nat
    decreases e, 2
  {
    OwnEntry(k, e) + (if e.child.Sub? then Weight(k, e.child.dir) else 0)
  }

  /** The regions together fit into `GetSize` bytes, which counts no more than the names once again on top. */
  lemma {:induction false} RegionsFit(d: Directory)
    ensures var all := Weight(Dirs, d) + Weight(Leaves, d) + Weight(Names, d) + Weight(Raws, d);
            all <= SizeOf(d) <= all + Weight(Names, d)
    decreases d, 1
  {
    RegionsFitEntries(d.entries);
  }

  lemma {:induction false} RegionsFitEntries(es: seq<Entry>)
    ensures var all := WeightEntries(Dirs, es) + WeightEntries(Leaves, es) + WeightEntries(Names, es)
                       + WeightEntries(Raws, es);
            all <= SizeEntries(es) <= all + WeightEntries(Names, es)
    decreases es, 0
  {
    if es != [] {
      RegionsFitEntries(es[..|es| - 1]);
      RegionsFitEntry(es[|es| - 1]);
    }
  }

  lemma {:induction false} RegionsFitEntry(e: Entry)
    ensures var all := WeightEntry(Dirs, e) + WeightEntry(Leaves, e) + WeightEntry(Names, e) + WeightEntry(Raws, e);
            all <= SizeEntry(e) <= all + WeightEntry(Names, e)
    decreases e, 2
  {
    if e.child.Sub? {
      RegionsFit(e.child.dir);
    }
  }

  /* ---------- the reader's view ---------- */

  ghost predicate HeaderAt(s: seq<Byte>, o: nat, d: Directory) {
    && o + 16 <= |s|
    && Get32(s, o) == d.info.characteristics && Get32(s, o + 4) == d.info.stamp
    && Get16(s, o + 8) == d.info.major && Get16(s, o + 10) == d.info.minor
    && Get16(s, o + 12) == d.named && Get16(s, o + 14) == d.ids
  }

  ghost predicate StringAt(s: seq<Byte>, o: nat, chars: seq<Word>) {
    && o + 2 + 2 * |chars| <= |s|
    && Get16(s, o) == |chars|
    && forall j :: 0 <= j < |chars| ==> Get16(s, o + 2 + 2 * j) == chars[j]
  }

  ghost predicate NameAt(s: seq<Byte>, at: nat, n: Name)
    requires at + 4 <= |s|
  {
    match n
    case Str(chars) => Get32(s, at) >= HIGH_BIT && StringAt(s, Get32(s, at) - HIGH_BIT, chars)
    case Id(id) => Get32(s, at) == id
  }

  /** A data entry at `o` whose data lies where its virtual address says. */
  ghost predicate DataAt(s: seq<Byte>, va: nat, o: nat, bytes: seq<Byte>, codePage: DWord) {
    && o + 16 <= |s|
    && Get32(s, o + 4) == |bytes| && Get32(s, o + 8) == codePage
    && va <= Get32(s, o)
    && var raw := Get32(s, o) - va;
       raw + |bytes| <= |s| && s[raw..raw + |bytes|] == bytes
  }

  /** The block at `o` is the directory `d`, in order, with names, data and everything below. */
  ghost predicate Describes(s: seq<Byte>, va: nat, o: nat, d: Directory)
    decreases d, 1
  {
    && HeaderAt(s, o, d)
    && o + 16 + 8 * |d.entries| <= |s|
    && forall i :: 0 <= i < |d.entries| ==> EntryDescribed(s, va, o + 16 + 8 * i, d.entries[i])
  }

  ghost predicate EntryDescribed(s: seq<Byte>, va: nat, at: nat, e: Entry)
    requires at + 8 <= |s|
    decreases e, 0
  {
    && NameAt(s, at, e.name)
    && match e.child
       case Sub(dir) => Get32(s, at + 4) >= HIGH_BIT && Describes(s, va, Get32(s, at + 4) - HIGH_BIT, dir)
       case Data(bytes, codePage) => Get32(s, at + 4) < HIGH_BIT && DataAt(s, va, Get32(s, at + 4), bytes, codePage)
  }

  /** A tree the format can hold: sorted, 16-bit counters, 16-bit name lengths, names without NUL. */
  ghost predicate Storable(d: Directory)
    decreases d, 1
  {
    && Sorted(d) && d.named < WORD_LIMIT && d.ids < WORD_LIMIT
    && forall i :: 0 <= i < |d.entries| ==> StorableEntry(d.entries[i])
  }

  predicate NulFree(chars: seq<Word>) {
    forall j :: 0 <= j < |chars| ==> chars[j] != 0
  }

  ghost predicate StorableEntry(e: Entry)
    decreases e, 0
  {
    && (e.name.Str? ==> |e.name.chars| < WORD_LIMIT && NulFree(e.name.chars))
    && match e.child
       case Sub(dir) => Storable(dir)
       case Data(bytes, _) => |bytes| < DWORD_LIMIT
  }

  /* ---------- paths: how the writer refers to objects of the tree ---------- */

  type Path = seq<int>

  function Snoc(p: Path, i: int): (q: Path)
    ensures q != [] && Front(q) == p && Last(q) == i
  {
    p + [i]
  }

  function Front(q: Path): Path
    requires q != []
  {
    q[..|q| - 1]
  }

  function Last(q: Path): int
    requires q != []
  {
    q[|q| - 1]
  }

  lemma SnocFrontLast(q: Path)
    requires q != []
    ensures Snoc(Front(q), Last(q)) == q
  {
  }

  /** `p` names a directory. */
  predicate IsDir(root: Directory, p: Path)
    decreases |p|, 2
  {
    p == [] || (IsEntry(root, p) && EntryAt(root, p).child.Sub?)
  }

  function DirAt(root: Directory, p: Path): Directory
    requires IsDir(root, p)
    decreases |p|, 3
  {
    if p == [] then root else EntryAt(root, p).child.dir
  }

  /** `q` names an entry: a directory and a position in it. */
  predicate IsEntry(root: Directory, q: Path)
    decreases |q|, 0
  {
    q != [] && IsDir(root, Front(q)) && 0 <= Last(q) < |DirAt(root, Front(q)).entries|
  }

  function EntryAt(root: Directory, q: Path): Entry
    requires IsEntry(root, q)
    decreases |q|, 1
  {
    DirAt(root, Front(q)).entries[Last(q)]
  }
}
