/**
 `WriteRsrcSec`: the tree is written breadth-first through queues into one block;
 names, data and directory offsets are patched in afterwards.

 Objects of the tree are referred to by their paths; the `m_ulWrittenAt` fields are
 the maps `dirAt`, `entryAt` and `dataAt`.
 */
module ResourceWriter {
  import opened Bytes
  import opened ResourceTree
  import opened ResourceLayout

  /** Copies bytes into the block. */
  method Poke(sec: array<Byte>, at: nat, bytes: seq<Byte>)
    requires at + |bytes| <= sec.Length
    modifies sec
    ensures sec[..] == Patch(old(sec[..]), at, bytes)
  {
    forall i | 0 <= i < |bytes| {
      sec[at + i] := bytes[i];
    }
  }

  method Poke32(sec: array<Byte>, at: nat, v: int)
    requires at + 4 <= sec.Length && 0 <= v < DWORD_LIMIT
    modifies sec
    ensures Kept(old(sec[..]), sec[..], 0, at) && Kept(old(sec[..]), sec[..], at + 4, sec.Length)
    ensures Get32(sec[..], at) == v
  {
    Poke(sec, at, Le32(v));
    PatchedWord(old(sec[..]), at, v);
  }

  method Poke16(sec: array<Byte>, at: nat, v: int)
    requires at + 2 <= sec.Length && 0 <= v < WORD_LIMIT
    modifies sec
    ensures Kept(old(sec[..]), sec[..], 0, at) && Kept(old(sec[..]), sec[..], at + 2, sec.Length)
    ensures Get16(sec[..], at) == v
  {
    Poke(sec, at, Le16(v));
  }

  lemma PatchedWord(s: seq<Byte>, at: nat, v: int)
    requires at + 4 <= |s| && 0 <= v < DWORD_LIMIT
    ensures Get32(Patch(s, at, Le32(v)), at) == v
  {
    var b := Le32(v);
    var r := Patch(s, at, b);
    assert forall i :: 0 <= i < 4 ==> r[at..at + 4][i] == b[i];
    assert r[at] == b[0] && r[at + 1] == b[1] && r[at + 2] == b[2] && r[at + 3] == b[3];
  }

  /** The bytes from `lo` to `hi` have not changed. */
  ghost predicate Kept(s: seq<Byte>, t: seq<Byte>, lo: nat, hi: nat) {
    |s| == |t| && forall j :: lo <= j < hi && j < |s| ==> t[j] == s[j]
  }

  /* ---------- queue sums ---------- */

  ghost predicate AllDirs(root: Directory, ps: seq<Path>) {
    forall i :: 0 <= i < |ps| ==> IsDir(root, ps[i])
  }

  ghost predicate AllEntries(root: Directory, qs: seq<Path>) {
    forall i :: 0 <= i < |qs| ==> IsEntry(root, qs[i])
  }

  ghost function WeightPaths(k: Region, root: Directory, ps: seq<Path>): nat
    requires AllDirs(root, ps)
  {
    if ps == [] then 0 else WeightPaths(k, root, ps[..|ps| - 1]) + Weight(k, DirAt(root, ps[|ps| - 1]))
  }

  ghost function OwnPaths(k: Region, root: Directory, qs: seq<Path>): nat
    requires AllEntries(root, qs)
  {
    if qs == [] then 0 else OwnPaths(k, root, qs[..|qs| - 1]) + OwnEntry(k, EntryAt(root, qs[|qs| - 1]))
  }

  lemma {:induction false} WeightConcat(k: Region, root: Directory, a: seq<Path>, b: seq<Path>)
    requires AllDirs(root, a) && AllDirs(root, b)
    ensures AllDirs(root, a + b) && WeightPaths(k, root, a + b) == WeightPaths(k, root, a) + WeightPaths(k, root, b)
  {
    if b == [] {
      assert a + b == a;
    } else {
      WeightConcat(k, root, a, b[..|b| - 1]);
      assert (a + b)[..|a + b| - 1] == a + b[..|b| - 1];
    }
  }

  lemma {:induction false} OwnConcat(k: Region, root: Directory, a: seq<Path>, b: seq<Path>)
    requires AllEntries(root, a) && AllEntries(root, b)
    ensures AllEntries(root, a + b) && OwnPaths(k, root, a + b) == OwnPaths(k, root, a) + OwnPaths(k, root, b)
  {
    if b == [] {
      assert a + b == a;
    } else {
      OwnConcat(k, root, a, b[..|b| - 1]);
      assert (a + b)[..|a + b| - 1] == a + b[..|b| - 1];
    }
  }

  /** The queue that feeds a region after the directories. */
  function Feeder(k: Region, leaves: seq<Path>, names: seq<Path>): seq<Path> {
    if k == Names then names else leaves
  }

  /* ---------- one directory ---------- */

  /** The words a directory entry gets at first: only the id and the two flags. */
  function NameWord(e: Entry): int {
    if e.name.Str? then HIGH_BIT else e.name.id
  }

  function OffsetWord(e: Entry): int {
    if e.child.Sub? then HIGH_BIT else 0
  }

  ghost predicate FirstWords(s: seq<Byte>, at: nat, e: Entry) {
    at + 8 <= |s| && Get32(s, at) == NameWord(e) && Get32(s, at + 4) == OffsetWord(e)
  }

  method WriteHeader(sec: array<Byte>, seeker: nat, d: Directory)
    requires seeker + 16 <= sec.Length && d.named < WORD_LIMIT && d.ids < WORD_LIMIT
    modifies sec
    ensures Kept(old(sec[..]), sec[..], 0, seeker) && Kept(old(sec[..]), sec[..], seeker + 16, sec.Length)
    ensures HeaderAt(sec[..], seeker, d)
  {
    Poke32(sec, seeker, d.info.characteristics);
    Poke32(sec, seeker + 4, d.info.stamp);
    Poke16(sec, seeker + 8, d.info.major);
    Poke16(sec, seeker + 10, d.info.minor);
    Poke16(sec, seeker + 12, d.named);
    Poke16(sec, seeker + 14, d.ids);
  }

  /** The entries of directory `p` before `i` have been pushed to the queues their kinds call for,
      and the queues account for what these entries and everything below them will need. */
  ghost predicate Collected(root: Directory, p: Path, i: nat, subs: seq<Path>, leaves: seq<Path>, names: seq<Path>)
    requires IsDir(root, p) && i <= |DirAt(root, p).entries|
  {
    && AllDirs(root, subs) && AllEntries(root, leaves) && AllEntries(root, names)
    && Members(root, p, i, subs, leaves, names)
    && Balanced(Dirs, root, p, i, subs, leaves, names) && Balanced(Leaves, root, p, i, subs, leaves, names)
    && Balanced(Names, root, p, i, subs, leaves, names) && Balanced(Raws, root, p, i, subs, leaves, names)
  }

  ghost predicate Members(root: Directory, p: Path, i: nat, subs: seq<Path>, leaves: seq<Path>, names: seq<Path>) {
    && (forall j :: 0 <= j < i ==> Queued(root, Snoc(p, j), subs, leaves, names))
    && (forall q :: q in subs || q in leaves || q in names ==> IsEntry(root, q) && Front(q) == p)
    && (forall q :: q in leaves ==> EntryAt(root, q).child.Data?)
    && (forall q :: q in names ==> EntryAt(root, q).name.Str?)
  }

  /** An entry is in the queues its kind calls for. */
  ghost predicate Queued(root: Directory, q: Path, subs: seq<Path>, leaves: seq<Path>, names: seq<Path>) {
    && IsEntry(root, q)
    && (if EntryAt(root, q).child.Sub? then q in subs else q in leaves)
    && (EntryAt(root, q).name.Str? ==> q in names)
  }

  ghost predicate Balanced(k: Region, root: Directory, p: Path, i: nat, subs: seq<Path>, leaves: seq<Path>,
                           names: seq<Path>)
    requires IsDir(root, p) && i <= |DirAt(root, p).entries|
    requires AllDirs(root, subs) && AllEntries(root, leaves) && AllEntries(root, names)
  {
    WeightEntries(k, DirAt(root, p).entries[..i]) ==
      (if k == Dirs then 8 * i else OwnPaths(k, root, Feeder(k, leaves, names))) + WeightPaths(k, root, subs)
  }

  /** Pushing entry `i`. */
  function PushIf(b: bool, ps: seq<Path>, q: Path): seq<Path> {
    if b then ps + [q] else ps
  }

  lemma CollectNext(root: Directory, p: Path, i: nat, subs: seq<Path>, leaves: seq<Path>, names: seq<Path>)
    requires IsDir(root, p) && i < |DirAt(root, p).entries|
    requires Collected(root, p, i, subs, leaves, names)
    ensures var q := Snoc(p, i); var e := DirAt(root, p).entries[i];
      Collected(root, p, i + 1, PushIf(e.child.Sub?, subs, q), PushIf(e.child.Data?, leaves, q),
                PushIf(e.name.Str?, names, q))
  {
    hide Balanced, Members;
    BalanceNext(Dirs, root, p, i, subs, leaves, names);
    BalanceNext(Leaves, root, p, i, subs, leaves, names);
    BalanceNext(Names, root, p, i, subs, leaves, names);
    BalanceNext(Raws, root, p, i, subs, leaves, names);
    MembersNext(root, p, i, subs, leaves, names);
  }

  lemma SnocEntry(root: Directory, p: Path, i: nat)
    requires IsDir(root, p) && i < |DirAt(root, p).entries|
    ensures IsEntry(root, Snoc(p, i)) && EntryAt(root, Snoc(p, i)) == DirAt(root, p).entries[i]
    ensures DirAt(root, p).entries[i].child.Sub? ==>
      IsDir(root, Snoc(p, i)) && DirAt(root, Snoc(p, i)) == DirAt(root, p).entries[i].child.dir
  {
  }

  lemma MembersNext(root: Directory, p: Path, i: nat, subs: seq<Path>, leaves: seq<Path>, names: seq<Path>)
    requires IsDir(root, p) && i < |DirAt(root, p).entries|
    requires Members(root, p, i, subs, leaves, names)
    ensures var q := Snoc(p, i); var e := DirAt(root, p).entries[i];
      Members(root, p, i + 1, PushIf(e.child.Sub?, subs, q), PushIf(e.child.Data?, leaves, q),
              PushIf(e.name.Str?, names, q))
  {
    SnocEntry(root, p, i);
    hide IsDir, IsEntry, EntryAt, DirAt;
    var q, e := Snoc(p, i), DirAt(root, p).entries[i];
    var subs', leaves', names' := PushIf(e.child.Sub?, subs, q), PushIf(e.child.Data?, leaves, q),
        PushIf(e.name.Str?, names, q);
    forall j | 0 <= j < i ensures Queued(root, Snoc(p, j), subs', leaves', names') {
      assert Queued(root, Snoc(p, j), subs, leaves, names);
    }
  }

  lemma PushDir(k: Region, root: Directory, ps: seq<Path>, q: Path)
    requires AllDirs(root, ps) && IsDir(root, q)
    ensures AllDirs(root, ps + [q])
        && WeightPaths(k, root, ps + [q]) == WeightPaths(k, root, ps) + Weight(k, DirAt(root, q))
  {
    hide IsDir, DirAt, Weight;
    assert (ps + [q])[..|ps|] == ps;
  }

  lemma PushEntry(k: Region, root: Directory, ps: seq<Path>, q: Path)
    requires AllEntries(root, ps) && IsEntry(root, q)
    ensures AllEntries(root, ps + [q])
        && OwnPaths(k, root, ps + [q]) == OwnPaths(k, root, ps) + OwnEntry(k, EntryAt(root, q))
  {
    hide IsEntry, EntryAt, OwnEntry;
    assert (ps + [q])[..|ps|] == ps;
  }

  lemma WeightNext(k: Region, es: seq<Entry>, i: nat)
    requires i < |es|
    ensures WeightEntries(k, es[..i + 1]) == WeightEntries(k, es[..i]) + OwnEntry(k, es[i])
      + (if es[i].child.Sub? then Weight(k, es[i].child.dir) else 0)
  {
    var now := es[..i + 1];
    assert now[..|now| - 1] == es[..i] && now[|now| - 1] == es[i];
  }

  lemma DescendNext(k: Region, root: Directory, subs: seq<Path>, q: Path, e: Entry)
    requires AllDirs(root, subs) && IsEntry(root, q) && EntryAt(root, q) == e
    ensures var subs' := PushIf(e.child.Sub?, subs, q);
      AllDirs(root, subs') &&
      WeightPaths(k, root, subs') == WeightPaths(k, root, subs) + (if e.child.Sub? then Weight(k, e.child.dir) else 0)
  {
    if e.child.Sub? {
      PushDir(k, root, subs, q);
    }
  }

  lemma FeedNext(k: Region, root: Directory, leaves: seq<Path>, names: seq<Path>, q: Path, e: Entry)
    requires AllEntries(root, leaves) && AllEntries(root, names) && IsEntry(root, q) && EntryAt(root, q) == e
    ensures var (leaves', names') := (PushIf(e.child.Data?, leaves, q), PushIf(e.name.Str?, names, q));
      AllEntries(root, leaves') && AllEntries(root, names') &&
      (k != Dirs ==>
        OwnPaths(k, root, Feeder(k, leaves', names')) == OwnPaths(k, root, Feeder(k, leaves, names)) + OwnEntry(k, e))
  {
    hide IsEntry, EntryAt;
    if e.child.Data? {
      PushEntry(k, root, leaves, q);
    }
    if e.name.Str? {
      PushEntry(k, root, names, q);
    }
  }

  lemma BalanceNext(k: Region, root: Directory, p: Path, i: nat, subs: seq<Path>, leaves: seq<Path>, names: seq<Path>)
    requires IsDir(root, p) && i < |DirAt(root, p).entries|
    requires AllDirs(root, subs) && AllEntries(root, leaves) && AllEntries(root, names)
    requires Balanced(k, root, p, i, subs, leaves, names)
    ensures var q := Snoc(p, i); var e := DirAt(root, p).entries[i];
      && AllDirs(root, PushIf(e.child.Sub?, subs, q))
      && AllEntries(root, PushIf(e.child.Data?, leaves, q)) && AllEntries(root, PushIf(e.name.Str?, names, q))
      && Balanced(k, root, p, i + 1, PushIf(e.child.Sub?, subs, q), PushIf(e.child.Data?, leaves, q),
                  PushIf(e.name.Str?, names, q))
  {
    SnocEntry(root, p, i);
    assert OwnEntry(Dirs, DirAt(root, p).entries[i]) == 8;
    hide IsDir, IsEntry, EntryAt, DirAt, AllDirs, AllEntries, WeightPaths, OwnPaths, Weight, WeightEntries, OwnEntry,
        PushIf, Feeder, Snoc;
    var q, e := Snoc(p, i), DirAt(root, p).entries[i];
    WeightNext(k, DirAt(root, p).entries, i);
    DescendNext(k, root, subs, q, e);
    FeedNext(k, root, leaves, names, q, e);
  }

  /** What has been done when `i` entries of directory `p` at `start` have been written. */
  ghost predicate EntriesDone(s0: seq<Byte>, s: seq<Byte>, root: Directory, p: Path, start: nat, i: nat,
                              entryAt: map<Path, int>, at: map<Path, int>,
                              subs: seq<Path>, leaves: seq<Path>, names: seq<Path>)
    requires IsDir(root, p) && i <= |DirAt(root, p).entries|
  {
    && Kept(s0, s, 0, start)
    && HeaderAt(s, start, DirAt(root, p))
    && WordsFrom(s, start + 16, DirAt(root, p).entries, i)
    && PositionsFrom(p, start + 16, i, entryAt, at)
    && Collected(root, p, i, subs, leaves, names)
  }

  /** The outer loop's body: header and entries of the directory at the front of the queue. */
  method WriteDirectory(sec: array<Byte>, root: Directory, p: Path, start: nat, entryAt: map<Path, int>)
    returns (at: map<Path, int>, subs: seq<Path>, leaves: seq<Path>, names: seq<Path>)
    requires IsDir(root, p)
    requires var d := DirAt(root, p);
      d.named < WORD_LIMIT && d.ids < WORD_LIMIT && start + 16 + 8 * |d.entries| <= sec.Length
    modifies sec
    ensures EntriesDone(old(sec[..]), sec[..], root, p, start, |DirAt(root, p).entries|, entryAt, at, subs, leaves,
                        names)
  {
    ghost var s0 := sec[..];
    WriteHeader(sec, start, DirAt(root, p));
    NothingDone(s0, sec[..], root, p, start, entryAt);
    hide EntriesDone;
    at, subs, leaves, names := WriteEntries(sec, root, p, start, s0, entryAt);
  }

  /** The inner loop. */
  method WriteEntries(sec: array<Byte>, root: Directory, p: Path, start: nat, ghost s0: seq<Byte>,
                      entryAt: map<Path, int>)
    returns (at: map<Path, int>, subs: seq<Path>, leaves: seq<Path>, names: seq<Path>)
    requires IsDir(root, p) && start + 16 + 8 * |DirAt(root, p).entries| <= sec.Length
    requires EntriesDone(s0, sec[..], root, p, start, 0, entryAt, entryAt, [], [], [])
    modifies sec
    ensures EntriesDone(s0, sec[..], root, p, start, |DirAt(root, p).entries|, entryAt, at, subs, leaves, names)
  {
    hide EntriesDone, IsDir, IsEntry, DirAt, EntryAt, Kept, FirstWords, HeaderAt;
    var d := DirAt(root, p);
    at, subs, leaves, names := entryAt, [], [], [];
    var seeker := start + 16;
    var i := 0;
    while i < |d.entries|
      invariant 0 <= i <= |d.entries| && seeker == start + 16 + 8 * i
      invariant EntriesDone(s0, sec[..], root, p, start, i, entryAt, at, subs, leaves, names)
    {
      var e, q := d.entries[i], Snoc(p, i);
      ghost var s := sec[..];
      WriteEntry(sec, seeker, e);
      EntryDone(s0, s, sec[..], root, p, start, i, seeker, entryAt, at, subs, leaves, names);
      names := PushIf(e.name.Str?, names, q);
      subs := PushIf(e.child.Sub?, subs, q);
      leaves := PushIf(e.child.Data?, leaves, q);
      at := at[q := seeker];
      seeker := seeker + 8;
      i := i + 1;
    }
  }

  lemma NothingDone(s0: seq<Byte>, s: seq<Byte>, root: Directory, p: Path, start: nat, entryAt: map<Path, int>)
    requires IsDir(root, p) && Kept(s0, s, 0, start) && HeaderAt(s, start, DirAt(root, p))
    ensures EntriesDone(s0, s, root, p, start, 0, entryAt, entryAt, [], [], [])
  {
    CollectNone(root, p);
  }

  lemma EntryDone(s0: seq<Byte>, s: seq<Byte>, t: seq<Byte>, root: Directory, p: Path, start: nat, i: nat, seeker: nat,
                  entryAt: map<Path, int>, at: map<Path, int>, subs: seq<Path>, leaves: seq<Path>, names: seq<Path>)
    requires IsDir(root, p) && i < |DirAt(root, p).entries|
    requires EntriesDone(s0, s, root, p, start, i, entryAt, at, subs, leaves, names)
    requires seeker == start + 16 + 8 * i
    requires Kept(s, t, 0, seeker) && FirstWords(t, seeker, DirAt(root, p).entries[i])
    ensures var q := Snoc(p, i); var e := DirAt(root, p).entries[i];
      EntriesDone(s0, t, root, p, start, i + 1, entryAt, at[q := seeker],
        PushIf(e.child.Sub?, subs, q), PushIf(e.child.Data?, leaves, q), PushIf(e.name.Str?, names, q))
  {
    hide Collected, Members, Balanced, PositionsFrom, WordsFrom, HeaderAt, FirstWords, IsDir, IsEntry, DirAt, EntryAt,
        Kept;
    CollectNext(root, p, i, subs, leaves, names);
    EntryWritten(s0, s, t, start, DirAt(root, p), i);
    PositionsNext(p, start + 16, i, entryAt, at);
  }

  /** Writing entry `i` of a directory keeps what came before. */
  lemma EntryWritten(s0: seq<Byte>, s: seq<Byte>, t: seq<Byte>, start: nat, d: Directory, i: nat)
    requires i < |d.entries|
    requires Kept(s0, s, 0, start) && HeaderAt(s, start, d) && WordsFrom(s, start + 16, d.entries, i)
    requires Kept(s, t, 0, start + 16 + 8 * i)
    requires FirstWords(t, start + 16 + 8 * i, d.entries[i])
    ensures Kept(s0, t, 0, start) && HeaderAt(t, start, d) && WordsFrom(t, start + 16, d.entries, i + 1)
  {
    HeaderKept(s, t, start, d);
    WordsNext(s, t, start + 16, d.entries, i);
  }

  method WriteEntry(sec: array<Byte>, seeker: nat, e: Entry)
    requires seeker + 8 <= sec.Length
    modifies sec
    ensures Kept(old(sec[..]), sec[..], 0, seeker)
    ensures FirstWords(sec[..], seeker, e)
  {
    Poke32(sec, seeker, NameWord(e));
    Poke32(sec, seeker + 4, OffsetWord(e));
  }

  lemma HeaderKept(s: seq<Byte>, t: seq<Byte>, o: nat, d: Directory)
    requires HeaderAt(s, o, d) && Kept(s, t, o, o + 16)
    ensures HeaderAt(t, o, d)
  {
  }

  lemma WordsNext(s: seq<Byte>, t: seq<Byte>, from: nat, es: seq<Entry>, n: nat)
    requires n < |es| && WordsFrom(s, from, es, n) && Kept(s, t, 0, from + 8 * n)
    requires FirstWords(t, from + 8 * n, es[n])
    ensures WordsFrom(t, from, es, n + 1)
  {
    forall i | 0 <= i < n ensures FirstWords(t, from + 8 * i, es[i]) {
      assert FirstWords(s, from + 8 * i, es[i]);
    }
  }

  lemma PositionsNext(p: Path, from: nat, i: nat, entryAt: map<Path, int>, at: map<Path, int>)
    requires PositionsFrom(p, from, i, entryAt, at)
    ensures PositionsFrom(p, from, i + 1, entryAt, at[Snoc(p, i) := from + 8 * i])
  {
  }

  lemma CollectNone(root: Directory, p: Path)
    requires IsDir(root, p)
    ensures Collected(root, p, 0, [], [], [])
  {
  }

  ghost predicate WordsFrom(s: seq<Byte>, from: nat, es: seq<Entry>, n: nat)
    requires n <= |es|
  {
    forall i :: 0 <= i < n ==> FirstWords(s, from + 8 * i, es[i])
  }

  /** `at` is `entryAt` with the first `n` entries of directory `p` at consecutive places. */
  ghost predicate PositionsFrom(p: Path, from: nat, n: nat, entryAt: map<Path, int>, at: map<Path, int>) {
    && (forall i :: 0 <= i < n ==> Snoc(p, i) in at && at[Snoc(p, i)] == from + 8 * i)
    && (forall q :: q in at ==> q in entryAt || (q != [] && Front(q) == p && 0 <= Last(q) < n))
    && (forall q :: q in entryAt && (q == [] || Front(q) != p) ==> q in at && at[q] == entryAt[q])
    && (forall q :: q in entryAt ==> q in at)
  }

  /* ---------- all directories ---------- */

  /** Every written directory has its place below `lim`, and directories do not overlap. */
  ghost predicate DirsPlaced(root: Directory, dirAt: map<Path, int>, lim: int) {
    && (forall p :: p in dirAt ==> IsDir(root, p) && 0 <= dirAt[p] && End(root, dirAt, p) <= lim)
    && (forall p, p' :: p in dirAt && p' in dirAt && p != p' ==>
          End(root, dirAt, p) <= dirAt[p'] || End(root, dirAt, p') <= dirAt[p])
  }

  /** Where a written directory ends. */
  ghost function End(root: Directory, dirAt: map<Path, int>, p: Path): int
    requires p in dirAt
  {
    if IsDir(root, p) then dirAt[p] + 16 + 8 * |DirAt(root, p).entries| else dirAt[p]
  }

  /** The entries of the written directories, and no others, have their places in them. */
  ghost predicate EntriesPlaced(root: Directory, dirAt: map<Path, int>, entryAt: map<Path, int>) {
    && (forall q :: q in entryAt ==>
          IsEntry(root, q) && Front(q) in dirAt && entryAt[q] == dirAt[Front(q)] + 16 + 8 * Last(q))
    && (forall q :: IsEntry(root, q) && Front(q) in dirAt ==> q in entryAt)
  }

  /** The block holds the headers and the first words of the entries. */
  ghost predicate Written(s: seq<Byte>, root: Directory, dirAt: map<Path, int>, entryAt: map<Path, int>) {
    && (forall p :: p in dirAt ==> IsDir(root, p) && 0 <= dirAt[p] && HeaderAt(s, dirAt[p], DirAt(root, p)))
    && (forall q :: q in entryAt ==>
          IsEntry(root, q) && 0 <= entryAt[q] && FirstWords(s, entryAt[q], EntryAt(root, q)))
  }

  /** Whatever a written entry refers to has been written or is queued. */
  ghost predicate Covered(root: Directory, dirAt: map<Path, int>, entryAt: map<Path, int>,
                          dirs: seq<Path>, leaves: seq<Path>, names: seq<Path>) {
    && AllDirs(root, dirs) && AllEntries(root, leaves) && AllEntries(root, names)
    && (forall q :: q in entryAt ==>
          && IsEntry(root, q)
          && (if EntryAt(root, q).child.Sub? then q in dirAt || q in dirs else q in leaves)
          && (EntryAt(root, q).name.Str? ==> q in names))
    && (forall q :: q in leaves ==> q in entryAt && IsEntry(root, q) && EntryAt(root, q).child.Data?)
    && (forall q :: q in names ==> q in entryAt && IsEntry(root, q) && EntryAt(root, q).name.Str?)
  }

  /** What a region holds so far and what is still queued for it make up its final size. */
  ghost predicate Accounted(k: Region, root: Directory, seeker: int, dirs: seq<Path>, leaves: seq<Path>,
                            names: seq<Path>)
    requires AllDirs(root, dirs) && AllEntries(root, leaves) && AllEntries(root, names)
  {
    Weight(k, root) == (if k == Dirs then seeker else OwnPaths(k, root, Feeder(k, leaves, names)))
      + WeightPaths(k, root, dirs)
  }

  lemma DirPlaced(root: Directory, dirAt: map<Path, int>, p: Path, start: nat)
    requires DirsPlaced(root, dirAt, start) && IsDir(root, p)
    ensures DirsPlaced(root, dirAt[p := start], start + 16 + 8 * |DirAt(root, p).entries|)
  {
    hide IsDir, DirAt;
    var dirAt' := dirAt[p := start];
    assert forall p' :: p' in dirAt && p' != p ==> End(root, dirAt', p') == End(root, dirAt, p') <= start;
  }

  lemma EntriesPlacedNext(root: Directory, dirAt: map<Path, int>, entryAt: map<Path, int>, p: Path, start: nat,
                          at: map<Path, int>)
    requires EntriesPlaced(root, dirAt, entryAt) && IsDir(root, p)
    requires PositionsFrom(p, start + 16, |DirAt(root, p).entries|, entryAt, at)
    ensures EntriesPlaced(root, dirAt[p := start], at)
  {
    var dirAt' := dirAt[p := start];
    var n := |DirAt(root, p).entries|;
    forall q | q in at ensures IsEntry(root, q) && Front(q) in dirAt' && at[q] == dirAt'[Front(q)] + 16 + 8 * Last(q) {
      if q !in entryAt || Front(q) == p {
        assert q != [] && Front(q) == p && 0 <= Last(q) < n;
        SnocFrontLast(q);
        assert at[Snoc(p, Last(q))] == start + 16 + 8 * Last(q);
      }
    }
    forall q | IsEntry(root, q) && Front(q) in dirAt' ensures q in at {
      if Front(q) == p {
        SnocFrontLast(q);
        assert Snoc(p, Last(q)) in at;
      }
    }
  }

  lemma WrittenNext(s0: seq<Byte>, s: seq<Byte>, root: Directory, dirAt: map<Path, int>, entryAt: map<Path, int>,
                    p: Path, start: nat, at: map<Path, int>)
    requires DirsPlaced(root, dirAt, start) && EntriesPlaced(root, dirAt, entryAt) && Written(s0, root, dirAt, entryAt)
    requires IsDir(root, p) && Kept(s0, s, 0, start) && HeaderAt(s, start, DirAt(root, p))
    requires WordsFrom(s, start + 16, DirAt(root, p).entries, |DirAt(root, p).entries|)
    requires PositionsFrom(p, start + 16, |DirAt(root, p).entries|, entryAt, at)
    ensures Written(s, root, dirAt[p := start], at)
  {
    hide IsDir, DirAt, EntryAt;
    var dirAt' := dirAt[p := start];
    forall p' | p' in dirAt' ensures IsDir(root, p') && 0 <= dirAt'[p'] && HeaderAt(s, dirAt'[p'], DirAt(root, p')) {
      if p' != p {
        assert End(root, dirAt, p') <= start;
        HeaderKept(s0, s, dirAt[p'], DirAt(root, p'));
      }
    }
    forall q | q in at ensures IsEntry(root, q) && 0 <= at[q] && FirstWords(s, at[q], EntryAt(root, q)) {
      EntryStillThere(s0, s, root, dirAt, entryAt, p, start, at, q);
    }
  }

  lemma EntryStillThere(s0: seq<Byte>, s: seq<Byte>, root: Directory, dirAt: map<Path, int>, entryAt: map<Path, int>,
                        p: Path, start: nat, at: map<Path, int>, q: Path)
    requires DirsPlaced(root, dirAt, start) && EntriesPlaced(root, dirAt, entryAt) && Written(s0, root, dirAt, entryAt)
    requires IsDir(root, p) && Kept(s0, s, 0, start)
    requires WordsFrom(s, start + 16, DirAt(root, p).entries, |DirAt(root, p).entries|)
    requires PositionsFrom(p, start + 16, |DirAt(root, p).entries|, entryAt, at)
    requires q in at
    ensures IsEntry(root, q) && 0 <= at[q] && FirstWords(s, at[q], EntryAt(root, q))
  {
    WhereIs(root, dirAt, entryAt, p, start, at, q);
    if Front(q) == p {
      NewWords(s, root, p, start, q);
    } else {
      EntryInside(root, dirAt, entryAt, start, q);
      OldWords(s0, root, dirAt, entryAt, q);
      hide IsDir, DirAt, IsEntry, EntryAt, FirstWords, DirsPlaced, EntriesPlaced, WordsFrom, Written, PositionsFrom;
      FirstWordsKept(s0, s, entryAt[q], EntryAt(root, q));
    }
  }

  lemma OldWords(s: seq<Byte>, root: Directory, dirAt: map<Path, int>, entryAt: map<Path, int>, q: Path)
    requires Written(s, root, dirAt, entryAt) && q in entryAt
    ensures IsEntry(root, q) && 0 <= entryAt[q] && FirstWords(s, entryAt[q], EntryAt(root, q))
  {
  }

  lemma NewWords(s: seq<Byte>, root: Directory, p: Path, start: nat, q: Path)
    requires IsDir(root, p) && q != [] && Front(q) == p && 0 <= Last(q) < |DirAt(root, p).entries|
    requires WordsFrom(s, start + 16, DirAt(root, p).entries, |DirAt(root, p).entries|)
    ensures IsEntry(root, q) && FirstWords(s, start + 16 + 8 * Last(q), EntryAt(root, q))
  {
    hide FirstWords;
  }

  /** An entry is either in the directory just written or where it was before. */
  lemma WhereIs(root: Directory, dirAt: map<Path, int>, entryAt: map<Path, int>, p: Path, start: nat,
                at: map<Path, int>, q: Path)
    requires EntriesPlaced(root, dirAt, entryAt) && IsDir(root, p) && q in at
    requires PositionsFrom(p, start + 16, |DirAt(root, p).entries|, entryAt, at)
    ensures q != []
    ensures if Front(q) == p then 0 <= Last(q) < |DirAt(root, p).entries| && at[q] == start + 16 + 8 * Last(q)
            else q in entryAt && at[q] == entryAt[q]
  {
    if Front(q) == p {
      SnocFrontLast(q);
      assert at[Snoc(p, Last(q))] == start + 16 + 8 * Last(q);
    }
  }

  /** The words of an entry lie inside its directory. */
  lemma EntryInside(root: Directory, dirAt: map<Path, int>, entryAt: map<Path, int>, lim: int, q: Path)
    requires DirsPlaced(root, dirAt, lim) && EntriesPlaced(root, dirAt, entryAt) && q in entryAt
    ensures q != [] && Front(q) in dirAt && IsDir(root, Front(q)) && 0 <= dirAt[Front(q)]
    ensures dirAt[Front(q)] + 16 <= entryAt[q] && entryAt[q] + 8 <= End(root, dirAt, Front(q)) <= lim
  {
    assert Front(q) in dirAt;
  }

  lemma FirstWordsKept(s: seq<Byte>, t: seq<Byte>, at: nat, e: Entry)
    requires FirstWords(s, at, e) && Kept(s, t, at, at + 8)
    ensures FirstWords(t, at, e)
  {
  }

  lemma CoveredNext(root: Directory, dirAt: map<Path, int>, entryAt: map<Path, int>, dirs: seq<Path>, leaves: seq<Path>,
                    names: seq<Path>, start: nat, at: map<Path, int>,
                    subs: seq<Path>, leaves': seq<Path>, names': seq<Path>)
    requires dirs != [] && Covered(root, dirAt, entryAt, dirs, leaves, names) && IsDir(root, dirs[0])
    requires PositionsFrom(dirs[0], start + 16, |DirAt(root, dirs[0]).entries|, entryAt, at)
    requires AllDirs(root, subs) && AllEntries(root, leaves') && AllEntries(root, names')
    requires Members(root, dirs[0], |DirAt(root, dirs[0]).entries|, subs, leaves', names')
    ensures Covered(root, dirAt[dirs[0] := start], at, dirs[1..] + subs, leaves + leaves', names + names')
  {
    var p := dirs[0];
    var dirAt', dirs' := dirAt[p := start], dirs[1..] + subs;
    assert forall q :: q in dirs ==> q == p || q in dirs[1..];
    forall q | q in at
      ensures IsEntry(root, q)
      ensures if EntryAt(root, q).child.Sub? then q in dirAt' || q in dirs' else q in leaves + leaves'
      ensures EntryAt(root, q).name.Str? ==> q in names + names'
    {
      if q !in entryAt || Front(q) == p {
        SnocFrontLast(q);
        assert Queued(root, Snoc(p, Last(q)), subs, leaves', names');
      }
    }
    forall q | q in leaves + leaves' ensures q in at && IsEntry(root, q) && EntryAt(root, q).child.Data? {
      if q !in leaves {
        SnocFrontLast(q);
        assert Snoc(p, Last(q)) in at;
      }
    }
    forall q | q in names + names' ensures q in at && IsEntry(root, q) && EntryAt(root, q).name.Str? {
      if q !in names {
        SnocFrontLast(q);
        assert Snoc(p, Last(q)) in at;
      }
    }
  }

  lemma AccountedNext(k: Region, root: Directory, seeker: int, dirs: seq<Path>, leaves: seq<Path>, names: seq<Path>,
                      subs: seq<Path>, leaves': seq<Path>, names': seq<Path>)
    requires dirs != [] && AllDirs(root, dirs) && AllEntries(root, leaves) && AllEntries(root, names)
    requires AllDirs(root, subs) && AllEntries(root, leaves') && AllEntries(root, names')
    requires Accounted(k, root, seeker, dirs, leaves, names)
    requires Balanced(k, root, dirs[0], |DirAt(root, dirs[0]).entries|, subs, leaves', names')
    ensures AllDirs(root, dirs[1..] + subs) && AllEntries(root, leaves + leaves') && AllEntries(root, names + names')
    ensures Accounted(k, root, seeker + 16 + 8 * |DirAt(root, dirs[0]).entries|, dirs[1..] + subs, leaves + leaves',
                      names + names')
  {
    var p, rest := dirs[0], dirs[1..];
    var es := DirAt(root, p).entries;
    assert AllDirs(root, [p]) && AllDirs(root, rest) && dirs == [p] + rest;
    WeightConcat(k, root, [p], rest);
    WeightConcat(k, root, rest, subs);
    OwnConcat(k, root, leaves, leaves');
    OwnConcat(k, root, names, names');
    assert es[..|es|] == es;
    PushDir(k, root, [], p);
    assert [] + [p] == [p];
  }

  /** The state of the outer loop: what is written, what is queued, and that both add up. */
  ghost predicate Progress(s: seq<Byte>, root: Directory, seeker: nat, dirAt: map<Path, int>, entryAt: map<Path, int>,
                           dirs: seq<Path>, leaves: seq<Path>, names: seq<Path>) {
    && DirsPlaced(root, dirAt, seeker) && EntriesPlaced(root, dirAt, entryAt) && Written(s, root, dirAt, entryAt)
    && Covered(root, dirAt, entryAt, dirs, leaves, names) && RootFirst(seeker, dirAt, dirs)
    && AllDirs(root, dirs) && AllEntries(root, leaves) && AllEntries(root, names)
    && Accounted(Dirs, root, seeker, dirs, leaves, names) && Accounted(Leaves, root, seeker, dirs, leaves, names)
    && Accounted(Names, root, seeker, dirs, leaves, names) && Accounted(Raws, root, seeker, dirs, leaves, names)
  }

  /** The root directory goes to the start of the section. */
  ghost predicate RootFirst(seeker: nat, dirAt: map<Path, int>, dirs: seq<Path>) {
    if seeker == 0 then dirs == [[]] else [] !in dirs && [] in dirAt && dirAt[[]] == 0
  }

  lemma RootFirstNext(root: Directory, seeker: nat, size: nat, dirAt: map<Path, int>, dirs: seq<Path>, n: nat,
                      subs: seq<Path>, leaves: seq<Path>, names: seq<Path>)
    requires dirs != [] && size > 0 && RootFirst(seeker, dirAt, dirs) && Members(root, dirs[0], n, subs, leaves, names)
    ensures RootFirst(seeker + size, dirAt[dirs[0] := seeker], dirs[1..] + subs)
  {
    hide IsDir, DirAt, EntryAt;
    assert forall q :: q in dirs[1..] ==> q in dirs;
    assert forall q :: q in subs ==> q != [];
  }

  lemma ProgressStart(s: seq<Byte>, root: Directory)
    ensures Progress(s, root, 0, map[], map[], [[]], [], [])
  {
    var none: seq<Path>, top: Path := [], [];
    assert IsDir(root, top) && DirAt(root, top) == root;
    PushDir(Dirs, root, none, top);
    PushDir(Leaves, root, none, top);
    PushDir(Names, root, none, top);
    PushDir(Raws, root, none, top);
    assert none + [top] == [top];
  }

  lemma ProgressNext(s0: seq<Byte>, s: seq<Byte>, root: Directory, seeker: nat, size: nat, dirAt: map<Path, int>,
                     entryAt: map<Path, int>, dirs: seq<Path>, leaves: seq<Path>, names: seq<Path>,
                     at: map<Path, int>, subs: seq<Path>, leaves': seq<Path>, names': seq<Path>)
    requires dirs != [] && IsDir(root, dirs[0])
    requires Progress(s0, root, seeker, dirAt, entryAt, dirs, leaves, names)
    requires EntriesDone(s0, s, root, dirs[0], seeker, |DirAt(root, dirs[0]).entries|, entryAt, at, subs, leaves',
                         names')
    requires size == 16 + 8 * |DirAt(root, dirs[0]).entries|
    ensures Progress(s, root, seeker + size, dirAt[dirs[0] := seeker], at,
      dirs[1..] + subs, leaves + leaves', names + names')
  {
    hide IsDir, IsEntry, DirAt, EntryAt, DirsPlaced, EntriesPlaced, Written, Covered, AllDirs, AllEntries, Accounted,
         Kept, HeaderAt, WordsFrom, PositionsFrom, Members, Balanced, RootFirst;
    DirPlaced(root, dirAt, dirs[0], seeker);
    EntriesPlacedNext(root, dirAt, entryAt, dirs[0], seeker, at);
    WrittenNext(s0, s, root, dirAt, entryAt, dirs[0], seeker, at);
    CoveredNext(root, dirAt, entryAt, dirs, leaves, names, seeker, at, subs, leaves', names');
    RootFirstNext(root, seeker, size, dirAt, dirs, |DirAt(root, dirs[0]).entries|, subs, leaves', names');
    AccountedNext(Dirs, root, seeker, dirs, leaves, names, subs, leaves', names');
    AccountedNext(Leaves, root, seeker, dirs, leaves, names, subs, leaves', names');
    AccountedNext(Names, root, seeker, dirs, leaves, names, subs, leaves', names');
    AccountedNext(Raws, root, seeker, dirs, leaves, names, subs, leaves', names');
  }

  lemma {:induction false} StorableDir(root: Directory, p: Path)
    requires Storable(root) && IsDir(root, p)
    ensures Storable(DirAt(root, p))
    decreases |p|
  {
    if p != [] {
      StorableDir(root, Front(p));
      assert StorableEntry(EntryAt(root, p));
    }
  }

  lemma {:induction false} EntriesWeigh(es: seq<Entry>)
    ensures WeightEntries(Dirs, es) >= 8 * |es|
  {
    if es != [] {
      EntriesWeigh(es[..|es| - 1]);
    }
  }

  /** The front of the queue fits into what is left of the directory region. */
  lemma FrontFits(s: seq<Byte>, root: Directory, seeker: nat, dirAt: map<Path, int>, entryAt: map<Path, int>,
                  dirs: seq<Path>, leaves: seq<Path>, names: seq<Path>)
    requires dirs != [] && Progress(s, root, seeker, dirAt, entryAt, dirs, leaves, names) && Storable(root)
    ensures IsDir(root, dirs[0])
    ensures seeker + 16 + 8 * |DirAt(root, dirs[0]).entries| <= Weight(Dirs, root)
    ensures DirAt(root, dirs[0]).named < WORD_LIMIT && DirAt(root, dirs[0]).ids < WORD_LIMIT
  {
    hide DirsPlaced, EntriesPlaced, Written, Covered;
    assert AllDirs(root, [dirs[0]]) && AllDirs(root, dirs[1..]) && dirs == [dirs[0]] + dirs[1..];
    WeightConcat(Dirs, root, [dirs[0]], dirs[1..]);
    PushDir(Dirs, root, [], dirs[0]);
    assert [] + [dirs[0]] == [dirs[0]];
    EntriesWeigh(DirAt(root, dirs[0]).entries);
    StorableDir(root, dirs[0]);
  }

  /** Takes the front of the queue. */
  method WriteFront(sec: array<Byte>, root: Directory, seeker: nat, dirAt: map<Path, int>, entryAt: map<Path, int>,
                    dirs: seq<Path>, leaves: seq<Path>, names: seq<Path>)
    returns (seeker': nat, dirAt': map<Path, int>, entryAt': map<Path, int>, dirs': seq<Path>, leaves': seq<Path>,
             names': seq<Path>)
    requires Storable(root) && Weight(Dirs, root) <= sec.Length && dirs != []
    requires Progress(sec[..], root, seeker, dirAt, entryAt, dirs, leaves, names)
    modifies sec
    ensures Progress(sec[..], root, seeker', dirAt', entryAt', dirs', leaves', names')
    ensures seeker < seeker' <= Weight(Dirs, root)
  {
    hide Progress, EntriesDone, IsDir, DirAt, IsEntry, EntryAt, Weight, Storable;
    ghost var s := sec[..];
    FrontFits(s, root, seeker, dirAt, entryAt, dirs, leaves, names);
    var size := 16 + 8 * |DirAt(root, dirs[0]).entries|;
    var subs, more, named;
    entryAt', subs, more, named := WriteDirectory(sec, root, dirs[0], seeker, entryAt);
    ProgressNext(s, sec[..], root, seeker, size, dirAt, entryAt, dirs, leaves, names, entryAt', subs, more, named);
    seeker', dirAt' := seeker + size, dirAt[dirs[0] := seeker];
    dirs', leaves', names' := dirs[1..] + subs, leaves + more, names + named;
  }

  /** The first phase: all directories, breadth-first. */
  method WriteDirectories(sec: array<Byte>, root: Directory)
    returns (seeker: nat, dirAt: map<Path, int>, entryAt: map<Path, int>, leaves: seq<Path>, names: seq<Path>)
    requires Storable(root) && Weight(Dirs, root) <= sec.Length
    modifies sec
    ensures seeker == Weight(Dirs, root)
    ensures Progress(sec[..], root, seeker, dirAt, entryAt, [], leaves, names)
  {
    ProgressStart(sec[..], root);
    hide Progress, EntriesDone, IsDir, DirAt, IsEntry, EntryAt, Weight, Storable;
    seeker, dirAt, entryAt, leaves, names := 0, map[], map[], [], [];
    var dirs: seq<Path> := [[]];
    while dirs != []
      invariant Progress(sec[..], root, seeker, dirAt, entryAt, dirs, leaves, names)
      decreases Weight(Dirs, root) - seeker
    {
      seeker, dirAt, entryAt, dirs, leaves, names := WriteFront(sec, root, seeker, dirAt, entryAt, dirs, leaves, names);
    }
    ProgressEnd(sec[..], root, seeker, dirAt, entryAt, leaves, names);
  }

  lemma ProgressEnd(s: seq<Byte>, root: Directory, seeker: nat, dirAt: map<Path, int>, entryAt: map<Path, int>,
                    leaves: seq<Path>, names: seq<Path>)
    requires Progress(s, root, seeker, dirAt, entryAt, [], leaves, names)
    ensures seeker == Weight(Dirs, root)
  {
  }
}
