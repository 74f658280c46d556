/** `ScanDirectory`: rebuilding a tree from a resource section by following its offsets. */
module ResourceScan {
  import opened Wrappers
  import opened Bytes
  import opened ResourceTree
  import opened ResourceLayout

  /** Copies a counted name, up to a NUL if there is one. */
  method ReadName(s: seq<Byte>, o: nat, ghost chars: seq<Word>) returns (r: seq<Word>)
    requires StringAt(s, o, chars) && NulFree(chars)
    ensures r == chars
  {
    var nameSize := Get16(s, o);
    r := [];
    while |r| < nameSize
      invariant |r| <= |chars| && r == chars[..|r|]
    {
      var unit := Get16(s, o + 2 + 2 * |r|);
      assert unit == chars[|r|];
      if unit == 0 {
        break;
      }
      r := r + [unit];
    }
  }

  /** The part of a directory rebuilt after `i` entries. */
  ghost function Partial(d: Directory, i: nat): Directory
    requires i <= |d.entries|
  {
    d.(named := if i < d.named then i else d.named, ids := if i < d.named then 0 else i - d.named,
       entries := d.entries[..i])
  }

  lemma PartialSorted(d: Directory, i: nat)
    requires Sorted(d) && i <= |d.entries|
    ensures Sorted(Partial(d, i))
  {
  }

  /** In a sorted directory the next entry goes to the end of what has been rebuilt. */
  lemma AppendNext(d: Directory, i: nat, r: Directory)
    requires Sorted(d) && i < |d.entries|
    requires Inserted(Partial(d, i), d.entries[i], r) && Sorted(r)
    ensures r == Partial(d, i + 1)
  {
    var p, e := Partial(d, i), d.entries[i];
    var k :| 0 <= k <= |p.entries| && r.entries == p.entries[..k] + [e] + p.entries[k..];
    if k < i {
      assert r.entries[k] == e && r.entries[k + 1] == d.entries[k];
      assert Before(d.entries[k].name, e.name);
      BeforeTrichotomy(d.entries[k].name, e.name);
      assert false;
    }
    assert d.entries[..i + 1] == d.entries[..i] + [e];
  }

  lemma NextIsNew(d: Directory, i: nat)
    requires Sorted(d) && i < |d.entries|
    ensures Child(Partial(d, i), d.entries[i].name) == None
  {
    BeforeTrichotomy(d.entries[i].name, d.entries[i].name);
  }

  method ScanName(s: seq<Byte>, at: nat, ghost e: Entry) returns (name: Name)
    requires at + 8 <= |s| && NameAt(s, at, e.name) && (e.name.Str? ==> NulFree(e.name.chars))
    ensures name == e.name
  {
    name := Id(Get16(s, at));
    if Get32(s, at) >= HIGH_BIT {
      var chars := ReadName(s, Get32(s, at) - HIGH_BIT, e.name.chars);
      name := Str(chars);
    }
  }

  lemma DataIsThere(s: seq<Byte>, va: nat, o: nat, bytes: seq<Byte>, codePage: DWord)
    requires DataAt(s, va, o, bytes, codePage)
    ensures o + 16 <= |s|
    ensures var raw := Get32(s, o) - va;
            && 0 <= raw <= |s| && Get32(s, o + 4) == |bytes| && Get32(s, o + 8) == codePage
            && raw + |bytes| <= |s| && s[raw..raw + |bytes|] == bytes
  {
  }

  /** Reads one directory entry: its name, and its data or the directory it points to. */
  method ScanEntry(s: seq<Byte>, va: nat, base: nat, size: nat, at: nat, ghost e: Entry) returns (ok: bool, r: Entry)
    requires at + 8 <= |s| && EntryDescribed(s, va, at, e) && StorableEntry(e) && base + |s| <= size
    ensures ok && r == e
    decreases e, 0
  {
    hide Get16, Get32, NameAt, Describes, Storable, DataAt;
    var name := ScanName(s, at, e);
    r := Entry(name, Sub(NEW_DIRECTORY));
    var offset := Get32(s, at + 4);
    if offset >= HIGH_BIT {
      var sub;
      ok, sub := ScanDirectory(s, va, base, size, offset - HIGH_BIT, e.child.dir);
      r := Entry(name, Sub(sub));
    } else {
      DataIsThere(s, va, offset, e.child.bytes, e.child.codePage);
      var raw := Get32(s, offset) - va;
      if base + raw > size {
        return false, r;
      }
      ok, r := true, Entry(name, Data(s[raw..raw + Get32(s, offset + 4)], Get32(s, offset + 8)));
    }
  }

  /** On a block that describes a storable tree the scan terminates, raises no error, and gives
      that tree back: order, names, numbers, data and code pages. */
  method ScanDirectory(s: seq<Byte>, va: nat, base: nat, size: nat, o: nat, ghost d: Directory)
    returns (ok: bool, r: Directory)
    requires Describes(s, va, o, d) && Storable(d) && base + |s| <= size
    ensures ok && r == d
    decreases d, 1
  {
    r := Directory(Info(Get32(s, o), Get32(s, o + 4), Get16(s, o + 8), Get16(s, o + 10)), 0, 0, []);
    var entries := Get16(s, o + 12) + Get16(s, o + 14);
    var i := 0;
    while i < entries
      invariant 0 <= i <= entries == |d.entries|
      invariant r == Partial(d, i)
    {
      var found, entry := ScanEntry(s, va, base, size, o + 16 + 8 * i, d.entries[i]);
      if !found {
        return false, r;
      }
      PartialSorted(d, i);
      NextIsNew(d, i);
      var added, next := AddEntry(r, entry);
      AppendNext(d, i, next);
      r := next;
      i := i + 1;
    }
    ok := true;
    assert d.entries[..|d.entries|] == d.entries;
  }
}
