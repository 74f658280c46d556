/**
 The resource editor: a three-level tree (type, name, language) used as a map to
 resource data, edited in place by raw-mode updates and deletions.
 */
module ResourceEditor {
  import opened Wrappers
  import opened Bytes
  import opened ResourceTree
  import ResourceLayout

  /** A level of the tree with `depth` directory levels below it, none of them empty. */
  ghost predicate WellFormed(d: Directory, depth: nat)
    decreases depth, 1
  {
    Sorted(d) && forall i :: 0 <= i < |d.entries| ==> Fits(d.entries[i], depth)
  }

  /** What an entry at this level may hold: resource data below a language, else a directory. */
  ghost predicate Fits(e: Entry, depth: nat)
    decreases depth, 0
  {
    if depth == 0 then e.child.Data? && e.name.Id?
    else e.child.Sub? && e.child.dir.entries != [] && WellFormed(e.child.dir, depth - 1)
  }

  /** The resource with this type, name and language. */
  function Get(root: Directory, t: Name, n: Name, l: Name): Option<Node> {
    match Child(root, t)
    case Some(Sub(nameDir)) =>
      (match Child(nameDir, n)
       case Some(Sub(langDir)) => Child(langDir, l)
       case _ => None)
    case _ => None
  }

  lemma ChildFits(d: Directory, depth: nat, n: Name)
    requires WellFormed(d, depth) && Child(d, n).Some?
    ensures Fits(Entry(n, Child(d, n).value), depth)
  {
    hide Fits;
    var i := Index(d.entries, n);
    assert Fits(d.entries[i], depth);
    assert d.entries[i] == Entry(n, Child(d, n).value);
  }

  lemma UpdatedWellFormed(d: Directory, depth: nat, i: nat, child: Node)
    requires WellFormed(d, depth) && i < |d.entries| && Fits(Entry(d.entries[i].name, child), depth)
    ensures WellFormed(Updated(d, i, child), depth)
  {
    hide Fits, Sorted;
    var r := Updated(d, i, child);
    ChildUpdated(d, i, child, d.entries[i].name);
    forall j | 0 <= j < |r.entries| ensures Fits(r.entries[j], depth) {
      assert r.entries[j] == if j == i then Entry(d.entries[i].name, child) else d.entries[j];
    }
  }

  lemma InsertedWellFormed(d: Directory, depth: nat, e: Entry, r: Directory)
    requires WellFormed(d, depth) && Inserted(d, e, r) && Sorted(r) && Fits(e, depth)
    ensures WellFormed(r, depth) && r.entries != []
  {
    hide Fits, Sorted;
    var k :| 0 <= k <= |d.entries| && r.entries == d.entries[..k] + [e] + d.entries[k..];
    forall j | 0 <= j < |r.entries| ensures Fits(r.entries[j], depth) {
      assert r.entries[j] == if j < k then d.entries[j] else if j == k then e else d.entries[j - 1];
    }
  }

  lemma RemovedWellFormed(d: Directory, depth: nat, i: nat)
    requires WellFormed(d, depth) && i < |d.entries|
    ensures WellFormed(Removed(d, i), depth)
  {
    hide Fits, Sorted;
    RemovedSorted(d, i);
  }

  /** Putting `child` under `n`: in place if the entry exists, otherwise through `AddEntry`. */
  method Put(d: Directory, depth: nat, n: Name, i: int, child: Node) returns (r: Directory)
    requires WellFormed(d, depth) && i == Index(d.entries, n)
    requires Fits(Entry(n, child), depth)
    ensures WellFormed(r, depth) && r.entries != []
    ensures forall m :: Child(r, m) == (if m == n then Some(child) else Child(d, m))
  {
    hide Fits, Sorted;
    if i >= 0 {
      r := Updated(d, i, child);
      UpdatedWellFormed(d, depth, i, child);
      forall m ensures Child(r, m) == if m == n then Some(child) else Child(d, m) {
        ChildUpdated(d, i, child, m);
      }
    } else {
      var added;
      added, r := AddEntry(d, Entry(n, child));
      InsertedWellFormed(d, depth, Entry(n, child), r);
      forall m ensures Child(r, m) == if m == n then Some(child) else Child(d, m) {
        ChildInserted(d, Entry(n, child), r, m);
      }
    }
  }

  /** Removing entry `i`, or updating it if what is left below it is not empty. */
  method Shrink(d: Directory, depth: nat, i: nat, below: Directory) returns (r: Directory)
    requires depth > 0 && WellFormed(d, depth) && i < |d.entries| && WellFormed(below, depth - 1)
    ensures WellFormed(r, depth)
    ensures forall m ::
      Child(r, m) == (if m != d.entries[i].name then Child(d, m)
                      else if below.entries == [] then None else Some(Sub(below)))
  {
    assert below.entries != [] ==> Fits(Entry(d.entries[i].name, Sub(below)), depth);
    hide Fits, Sorted;
    if below.entries == [] {
      r := Removed(d, i);
      RemovedWellFormed(d, depth, i);
      forall m ensures Child(r, m) == if m == d.entries[i].name then None else Child(d, m) {
        ChildRemoved(d, i, m);
      }
    } else {
      r := Updated(d, i, Sub(below));
      UpdatedWellFormed(d, depth, i, Sub(below));
      forall m ensures Child(r, m) == if m == d.entries[i].name then Some(Sub(below)) else Child(d, m) {
        ChildUpdated(d, i, Sub(below), m);
      }
    }
  }

  /** The subdirectory under `n`, empty if there is none. */
  function Below(d: Directory, n: Name): Directory {
    match Child(d, n)
    case Some(Sub(dir)) => dir
    case _ => NEW_DIRECTORY
  }

  /** The data entry after `SetData`, or a new one: the code page of an old entry is kept. */
  function Stored(old_: Option<Node>, bytes: seq<Byte>): Node {
    match old_
    case Some(Data(_, codePage)) => Data(bytes, codePage)
    case _ => Data(bytes, 0)
  }

  /* ---------- types as a script writes them ---------- */

  function Units(s: string): (u: seq<Word>)
    requires forall i :: 0 <= i < |s| ==> s[i] as int < 0x1_0000
  {
    seq(|s|, i requires 0 <= i < |s| => s[i] as int)
  }

  function Lower(s: seq<Word>): seq<Word> {
    seq(|s|, i requires 0 <= i < |s| => if 65 <= s[i] <= 90 then s[i] + 32 else s[i])
  }

  /** The names that may follow '#', in lower case, and the types they stand for. */
  const TYPE_NAMES: seq<(string, Word)> := [
    ("bitmap", 2), ("iconimage", 3), ("icon", 14), ("cursorimage", 1), ("cursor", 12),
    ("dialog", 5), ("menu", 4), ("version", 16), ("html", 23), ("manifest", 24)
  ]

  /** `_tcstoul`: the number at the start of a text in a base, and where it ends. */
  type Strtoul = (seq<Word>, nat) -> (nat, nat)

  /** `ParseSimpleInt`: an `int`, if the whole text is a number; "010" is not octal. */
  function ParseSimpleInt(s: seq<Word>, strtoul: Strtoul): Option<int> {
    var base := if |s| > 1 && s[0] == 48 && 48 <= s[1] <= 57 then 10 else 0;
    var (value, end) := strtoul(s, base);
    var low := value % 0x1_0000_0000;
    if end != |s| then None else Some(if low < 0x8000_0000 then low else low - 0x1_0000_0000)
  }

  /** The first of the names in `names` that `s` is, ignoring case. */
  function TypeNamed(s: seq<Word>, names: seq<(string, Word)>): (t: Option<Word>)
    requires forall j :: 0 <= j < |names| ==> forall i :: 0 <= i < |names[j].0| ==> names[j].0[i] as int < 0x1_0000
    ensures t.Some? ==> exists j :: 0 <= j < |names| && names[j].1 == t.value && Units(names[j].0) == Lower(s)
    ensures t == None ==> forall j :: 0 <= j < |names| ==> Units(names[j].0) != Lower(s)
  {
    if names == [] then None
    else if Lower(s) == Units(names[0].0) then Some(names[0].1)
    else TypeNamed(s, names[1..])
  }

  /** `ParseResourceTypeString`: a type behind '#' becomes a number or is refused, so what is not
      refused is looked up and added under the same name. */
  function ParseResourceTypeString(s: seq<Word>, strtoul: Strtoul): (t: Option<Name>)
    ensures t.Some? ==> !Hashed(t.value) && Canonical(t.value) == t.value && t.value != Id(0) && t.value != Str([])
    ensures t.Some? && t.value.Str? ==> t.value == Str(s)
    ensures Hashed(Str(s)) && t.Some? ==> t.value.Id?
  {
    if s != [] && s[0] == 35 then
      var named := TypeNamed(s[1..], TYPE_NAMES);
      if named.Some? then Some(Id(named.value))
      else
        var number := ParseSimpleInt(s[1..], strtoul);
        if number.Some? && 0 < number.value < 0x1_0000 then Some(Id(number.value)) else None
    else if s == [] then None
    else Some(Str(s))
  }

  /** With a type as a text with '#', which no command hands over, the bare function looks up the
      number behind it but adds the text: if the number is not there, what is added is never found. */
  predicate Lost(root: Directory, t: Name) {
    Hashed(t) && Child(root, Canonical(t)) == None
  }

  lemma NewWellFormed()
    ensures WellFormed(NEW_DIRECTORY, 0) && WellFormed(NEW_DIRECTORY, 1)
  {
  }

  /** The first part of `UpdateResourceW`: the directories and indices on the way to a resource. */
  method Locate(root: Directory, t: Name, n: Word, l: Word)
    returns (iType: int, nameDir: Directory, iName: int, langDir: Directory, iLang: int)
    requires WellFormed(root, 2)
    ensures iType == Index(root.entries, Canonical(t))
    ensures nameDir == Below(root, Canonical(t)) && WellFormed(nameDir, 1)
    ensures iName == Index(nameDir.entries, Id(n))
    ensures langDir == Below(nameDir, Id(n)) && WellFormed(langDir, 0)
    ensures iLang == Index(langDir.entries, Id(l))
    ensures Child(root, Canonical(t)) == None <==> iType == -1
    ensures Get(root, Canonical(t), Id(n), Id(l)) ==
              if iLang >= 0 then Some(langDir.entries[iLang].child) else None
    ensures iLang >= 0 ==> langDir.entries[iLang].child.Data?
  {
    NewWellFormed();
    hide Sorted, WellFormed;
    nameDir, iName, langDir, iLang := NEW_DIRECTORY, -1, NEW_DIRECTORY, -1;
    iType := Find(root, t);
    if iType > -1 {
      ChildFits(root, 2, Canonical(t));
      nameDir := root.entries[iType].child.dir;
      iName := Find(nameDir, Id(n));
      if iName > -1 {
        ChildFits(nameDir, 1, Id(n));
        langDir := nameDir.entries[iName].child.dir;
        iLang := Find(langDir, Id(l));
        if iLang > -1 {
          ChildFits(langDir, 0, Id(l));
        }
      }
    }
  }

  lemma GetUnder(root: Directory, root': Directory, t: Name, n: Name, l: Name)
    requires Child(root, t) == Child(root', t)
    ensures Get(root, t, n, l) == Get(root', t, n, l)
  {
  }

  /** `r` is `d` with `child` under `n`. */
  ghost predicate PutUnder(d: Directory, n: Name, child: Node, r: Directory) {
    forall m :: Child(r, m) == (if m == n then Some(child) else Child(d, m))
  }

  /** Three nested changes change exactly one resource. */
  lemma GetPut(root: Directory, t: Name, n: Name, l: Name, node: Node,
               langDir: Directory, nameDir: Directory, root': Directory, t': Name, n': Name, l': Name)
    requires PutUnder(Below(Below(root, t), n), l, node, langDir)
    requires PutUnder(Below(root, t), n, Sub(langDir), nameDir)
    requires PutUnder(root, t, Sub(nameDir), root')
    ensures Get(root', t', n', l') == if (t', n', l') == (t, n, l) then Some(node) else Get(root, t', n', l')
  {
    assert Child(root', t') == if t' == t then Some(Sub(nameDir)) else Child(root, t');
    if t' == t {
      assert Child(nameDir, n') == if n' == n then Some(Sub(langDir)) else Child(Below(root, t), n');
      if n' == n {
        assert Child(langDir, l') == if l' == l then Some(node) else Child(Below(Below(root, t), n), l');
      }
    }
  }

  class ResourceEditor {
    var root: Directory

    ghost predicate Valid()
      reads this
    {
      WellFormed(root, 2)
    }

    constructor (root: Directory)
      requires WellFormed(root, 2)
      ensures Valid() && this.root == root
    {
      this.root := root;
    }

    /** `UpdateResourceW` in raw mode with data: the tree then maps this key to the data and every
        other key to what it did. The last clause says what the function does with a text with '#',
        which its callers avoid. */
    method Set(t: Name, n: Word, l: Word, bytes: seq<Byte>) returns (success: bool)
      requires Valid()
      modifies this
      ensures Valid() && success
      ensures !Hashed(t) ==> forall t', n', l' ::
        Get(root, t', n', l') ==
          (if (t', n', l') == (t, Id(n), Id(l))
           then Some(Stored(Get(old(root), t', n', l'), bytes)) else Get(old(root), t', n', l'))
      ensures forall t', n', l' | !Lost(old(root), t) || !Hashed(t') ::
        Get(root, t', n', l') ==
          (if !Lost(old(root), t) && (t', n', l') == (Canonical(t), Id(n), Id(l))
           then Some(Stored(Get(old(root), t', n', l'), bytes)) else Get(old(root), t', n', l'))
    {
      hide Sorted, Get, Child, ToWord, Below;
      ghost var key := Canonical(t);
      var iType, nameDir, iName, langDir, iLang := Locate(root, t, n, l);
      var node := if iLang > -1 then Data(bytes, langDir.entries[iLang].child.codePage) else Data(bytes, 0);
      var langDir' := Put(langDir, 0, Id(l), iLang, node);
      var nameDir' := Put(nameDir, 1, Id(n), iName, Sub(langDir'));
      if iType > -1 || !Hashed(t) {
        var root' := Put(root, 2, if iType > -1 then root.entries[iType].name else t, iType, Sub(nameDir'));
        forall t', n', l' ensures Get(root', t', n', l') ==
            if (t', n', l') == (key, Id(n), Id(l)) then Some(node) else Get(root, t', n', l') {
          GetPut(root, key, Id(n), Id(l), node, langDir', nameDir', root', t', n', l');
        }
        root := root';
      } else {
        var entry := Entry(t, Sub(nameDir'));
        var added, root' := AddEntry(root, entry);
        if added {
          InsertedWellFormed(root, 2, entry, root');
          forall t', n', l' | t' != t ensures Get(root', t', n', l') == Get(root, t', n', l') {
            ChildInserted(root, entry, root', t');
            GetUnder(root', root, t', n', l');
          }
          root := root';
        }
      }
      success := true;
    }

    /** `UpdateResourceW` without data: removes the resource and the directories it leaves empty. */
    method Delete(t: Name, n: Word, l: Word) returns (success: bool)
      requires Valid()
      modifies this
      ensures Valid()
      ensures success <==> Get(old(root), Canonical(t), Id(n), Id(l)).Some?
      ensures forall t', n', l' ::
        Get(root, t', n', l') ==
          (if (t', n', l') == (Canonical(t), Id(n), Id(l)) then None else Get(old(root), t', n', l'))
    {
      hide Sorted, Index, Hashed, ToWord;
      var iType, nameDir, iName, langDir, iLang := Locate(root, t, n, l);
      if iLang == -1 {
        return false;
      }
      var langDir' := Removed(langDir, iLang);
      RemovedWellFormed(langDir, 0, iLang);
      forall m ensures Child(langDir', m) == if m == Id(l) then None else Child(langDir, m) {
        ChildRemoved(langDir, iLang, m);
      }
      var nameDir' := Shrink(nameDir, 1, iName, langDir');
      root := Shrink(root, 2, iType, nameDir');
      success := true;
    }

    /** `FindResourceLanguageDirEntryT` with ANYLANGID: the number of the first language. */
    method FindAnyLanguage(t: Name, n: Word) returns (found: bool, l: Word)
      requires Valid()
      ensures found ==> Get(root, Canonical(t), Id(n), Id(l)).Some?
      ensures !found ==> forall l' :: Get(root, Canonical(t), Id(n), l') == None
    {
      found, l := false, 0;
      var iType := Find(root, t);
      if iType > -1 {
        ChildFits(root, 2, Canonical(t));
        var nameDir := root.entries[iType].child.dir;
        var iName := Find(nameDir, Id(n));
        if iName > -1 {
          ChildFits(nameDir, 1, Id(n));
          var langDir := nameDir.entries[iName].child.dir;
          assert Fits(langDir.entries[0], 0);
          SortedIndex(langDir, 0);
          found, l := true, langDir.entries[0].name.id;
        }
      }
    }

    /** `DeleteResourceT` with ALLLANGID: ends with no language left, and touches nothing else. */
    method DeleteAllLanguages(t: Name, n: Word) returns (any: bool)
      requires Valid()
      modifies this
      ensures Valid()
      ensures any <==> exists l :: Get(old(root), Canonical(t), Id(n), l).Some?
      ensures forall t', n', l' ::
        Get(root, t', n', l') == (if (t', n') == (Canonical(t), Id(n)) then None else Get(old(root), t', n', l'))
    {
      hide Get, WellFormed, Canonical;
      ghost var key := Canonical(t);
      var deleted := 0;
      while true
        invariant Valid()
        invariant forall t', n', l' | (t', n') != (key, Id(n)) :: Get(root, t', n', l') == Get(old(root), t', n', l')
        invariant if deleted == 0 then root == old(root) else exists l :: Get(old(root), key, Id(n), l).Some?
        invariant forall l' :: Get(root, key, Id(n), l').Some? ==> Get(old(root), key, Id(n), l').Some?
        decreases Languages(root, key, Id(n))
      {
        ghost var before := Languages(root, key, Id(n));
        var found, l := FindAnyLanguage(t, n);
        if !found {
          return deleted > 0;
        }
        assert l in before;
        var success := Delete(t, n, l);
        if !success {
          return deleted > 0;
        }
        assert Languages(root, key, Id(n)) == before - {l};
        deleted := deleted + 1;
      }
    }
  }

  /** The languages a resource has. */
  ghost function Languages(root: Directory, t: Name, n: Name): set<int> {
    set l: int | 0 <= l < WORD_LIMIT && Get(root, t, n, Id(l)).Some?
  }

  /* ---------- what can be saved ---------- */

  predicate SoundName(n: Name) {
    n.Str? ==> |n.chars| < WORD_LIMIT && ResourceLayout.NulFree(n.chars)
  }

  /** Names and data that the format can hold. */
  ghost predicate Sound(root: Directory) {
    forall t, n, l :: Get(root, t, n, l).Some? ==> SoundResource(t, n, Get(root, t, n, l).value)
  }

  predicate SoundResource(t: Name, n: Name, node: Node) {
    SoundName(t) && SoundName(n) && (node.Data? ==> |node.bytes| < DWORD_LIMIT)
  }

  /** Counters that fit 16 bits, in all directories. */
  predicate Small(d: Directory) {
    && d.named < WORD_LIMIT && d.ids < WORD_LIMIT
    && forall i :: 0 <= i < |d.entries| && d.entries[i].child.Sub? ==> Small(d.entries[i].child.dir)
  }

  lemma EntryFits(d: Directory, depth: nat, i: nat)
    requires WellFormed(d, depth) && i < |d.entries|
    ensures Fits(d.entries[i], depth) && Child(d, d.entries[i].name) == Some(d.entries[i].child)
  {
    hide Fits;
    SortedIndex(d, i);
  }

  /** The resource in language entry `k` of name entry `j` of type entry `i`. */
  lemma KeyOf(root: Directory, i: nat, j: nat, k: nat)
    requires WellFormed(root, 2) && i < |root.entries| && root.entries[i].child.Sub?
    requires var names := root.entries[i].child.dir;
             j < |names.entries| && names.entries[j].child.Sub? && k < |names.entries[j].child.dir.entries|
    ensures var names := root.entries[i].child.dir;
            var langs := names.entries[j].child.dir;
            WellFormed(names, 1) && WellFormed(langs, 0) && Fits(langs.entries[k], 0)
            && Get(root, root.entries[i].name, names.entries[j].name, langs.entries[k].name)
               == Some(langs.entries[k].child)
  {
    hide Child, Sorted;
    EntryFits(root, 2, i);
    EntryFits(root.entries[i].child.dir, 1, j);
    EntryFits(root.entries[i].child.dir.entries[j].child.dir, 0, k);
  }

  lemma LanguagesStorable(root: Directory, i: nat, j: nat)
    requires WellFormed(root, 2) && Sound(root) && Small(root) && i < |root.entries| && root.entries[i].child.Sub?
    requires var names := root.entries[i].child.dir; j < |names.entries| && names.entries[j].child.Sub?
    ensures ResourceLayout.Storable(root.entries[i].child.dir.entries[j].child.dir)
  {
    hide Get, Sorted;
    var names := root.entries[i].child.dir;
    var langs := names.entries[j].child.dir;
    assert Fits(root.entries[i], 2) && Fits(names.entries[j], 1) && Small(names) && Small(langs);
    forall k | 0 <= k < |langs.entries|
      ensures ResourceLayout.StorableEntry(langs.entries[k])
    {
      KeyOf(root, i, j, k);
    }
  }

  /** A tree of the editor can be saved if its names and data can be and its counters fit. */
  lemma SoundIsStorable(root: Directory)
    requires WellFormed(root, 2) && Sound(root) && Small(root)
    ensures ResourceLayout.Storable(root)
  {
    hide Get, Sorted;
    forall i | 0 <= i < |root.entries|
      ensures ResourceLayout.StorableEntry(root.entries[i])
    {
      assert Fits(root.entries[i], 2);
      var names := root.entries[i].child.dir;
      forall j | 0 <= j < |names.entries|
        ensures ResourceLayout.StorableEntry(names.entries[j]) && SoundName(root.entries[i].name)
      {
        assert Fits(names.entries[j], 1);
        KeyOf(root, i, j, 0);
        LanguagesStorable(root, i, j);
      }
      assert ResourceLayout.StorableEntry(names.entries[0]);
    }
  }

  /** What can be saved has sound names and data, and small counters. */
  lemma StorableIsSound(root: Directory)
    requires WellFormed(root, 2) && ResourceLayout.Storable(root)
    ensures Sound(root)
  {
    hide Sorted;
    forall t, n, l | Get(root, t, n, l).Some?
      ensures SoundResource(t, n, Get(root, t, n, l).value)
    {
      ChildStorable(root, t);
      var names := Child(root, t).value.dir;
      ChildStorable(names, n);
      ChildStorable(names.entries[Index(names.entries, n)].child.dir, l);
    }
  }

  lemma ChildStorable(d: Directory, n: Name)
    requires ResourceLayout.Storable(d) && Child(d, n).Some?
    ensures ResourceLayout.StorableEntry(Entry(n, Child(d, n).value))
  {
    hide Sorted;
    var i := Index(d.entries, n);
    assert d.entries[i] == Entry(n, Child(d, n).value) && ResourceLayout.StorableEntry(d.entries[i]);
  }

  /* ---------- runs of the editor ---------- */

  datatype Edit =
    | Update(t: Name, n: Word, l: Word, bytes: seq<Byte>)
    | Remove(t: Name, n: Word, l: Word)

  /** What callers hand over: types that are no text with '#', names and data that the format can hold. */
  predicate SoundEdit(e: Edit) {
    !Hashed(e.t) && SoundName(e.t) && (e.Update? ==> |e.bytes| < DWORD_LIMIT)
  }

  /** What a key is mapped to after some edits: the last edit of this key decides. */
  function After(root: Directory, edits: seq<Edit>, t: Name, n: Name, l: Name): Option<Node> {
    if edits == [] then Get(root, t, n, l)
    else
      var before, e := After(root, edits[..|edits| - 1], t, n, l), edits[|edits| - 1];
      if (t, n, l) != (e.t, Id(e.n), Id(e.l)) then before
      else match e
        case Update(_, _, _, bytes) => Some(Stored(before, bytes))
        case Remove(_, _, _) => None
  }

  /** `d` maps every key to what it is after the edits. */
  ghost predicate Edited(root: Directory, edits: seq<Edit>, d: Directory) {
    forall t, n, l :: Get(d, t, n, l) == After(root, edits, t, n, l)
  }

  lemma {:induction false} AfterIsSound(root: Directory, edits: seq<Edit>, t: Name, n: Name, l: Name)
    requires Sound(root) && (forall e :: e in edits ==> SoundEdit(e)) && After(root, edits, t, n, l).Some?
    ensures SoundResource(t, n, After(root, edits, t, n, l).value)
  {
    hide Get;
    if edits != [] {
      var e := edits[|edits| - 1];
      assert e in edits;
      if After(root, edits[..|edits| - 1], t, n, l).Some? {
        AfterIsSound(root, edits[..|edits| - 1], t, n, l);
      }
    }
  }

  /** Any run of updates and deletions maps every key to what its last edit says, and stays within what can be
      saved, as far as the counters do. */
  method Run(root: Directory, edits: seq<Edit>) returns (editor: ResourceEditor)
    requires WellFormed(root, 2) && ResourceLayout.Storable(root) && forall e :: e in edits ==> SoundEdit(e)
    ensures editor.Valid() && Edited(root, edits, editor.root)
    ensures Small(editor.root) ==> ResourceLayout.Storable(editor.root)
  {
    hide Get, Sorted, WellFormed, ResourceLayout.Storable, Small, Stored;
    editor := new ResourceEditor(root);
    for i := 0 to |edits|
      invariant fresh(editor) && editor.Valid() && Edited(root, edits[..i], editor.root)
    {
      ghost var before := editor.root;
      var e := edits[i];
      assert edits[..i + 1][..i] == edits[..i] && e in edits;
      match e {
        case Update(t, n, l, bytes) => var _ := editor.Set(t, n, l, bytes);
        case Remove(t, n, l) => var _ := editor.Delete(t, n, l);
      }
    }
    assert edits[..|edits|] == edits;
    StorableIsSound(root);
    forall t, n, l | Get(editor.root, t, n, l).Some?
      ensures SoundResource(t, n, Get(editor.root, t, n, l).value)
    {
      AfterIsSound(root, edits, t, n, l);
    }
    if Small(editor.root) {
      SoundIsStorable(editor.root);
    }
  }
}
