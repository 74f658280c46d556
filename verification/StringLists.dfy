/**
 Lists of strings kept back to back in one buffer, each followed by a NUL.
 */
module StringLists {
  import opened Wrappers

  /** A C string: no NUL inside. */
  predicate Clean(s: string) {
    '\0' !in s
  }

  predicate AllClean(entries: seq<string>) {
    forall e :: e in entries ==> Clean(e)
  }

  function Flat(entries: seq<string>): string {
    if entries == [] then "" else Flat(entries[..|entries| - 1]) + entries[|entries| - 1] + ['\0']
  }

  lemma {:induction false} FlatConcat(a: seq<string>, b: seq<string>)
    ensures Flat(a + b) == Flat(a) + Flat(b)
    decreases |b|
  {
    if b == [] {
      assert a + b == a;
    } else {
      var last := |b| - 1;
      assert (a + b)[..|a + b| - 1] == a + b[..last];
      FlatConcat(a, b[..last]);
    }
  }

  predicate Terminated(chars: string, pos: nat) {
    pos <= |chars| && '\0' in chars[pos..]
  }

  /** `strlen`. */
  function StrLen(chars: string, pos: nat): (n: nat)
    requires Terminated(chars, pos)
    ensures pos + n < |chars| && chars[pos + n] == '\0' && Clean(chars[pos..pos + n])
    decreases |chars| - pos
  {
    if chars[pos] == '\0' then 0
    else
      assert chars[pos..] == [chars[pos]] + chars[pos + 1..];
      var n := StrLen(chars, pos + 1);
      assert chars[pos..pos + 1 + n] == [chars[pos]] + chars[pos + 1..pos + 1 + n];
      1 + n
  }

  /** What a reader gets that starts at `pos` and stops at the terminator. */
  function ReadAt(chars: string, pos: nat): string
    requires Terminated(chars, pos)
  {
    chars[pos..pos + StrLen(chars, pos)]
  }

  /** There is only one string that can be read from a position. */
  lemma ReadsTo(chars: string, pos: nat, s: string)
    requires Clean(s) && pos + |s| < |chars| && chars[pos..pos + |s|] == s && chars[pos + |s|] == '\0'
    ensures Terminated(chars, pos) && ReadAt(chars, pos) == s
  {
    assert chars[pos..][|s|] == '\0';
    var n := StrLen(chars, pos);
    assert forall i :: pos <= i < pos + |s| ==> chars[i] == s[i - pos];
    assert forall i :: pos <= i < pos + n ==> chars[i] == chars[pos..pos + n][i - pos];
    assert n == |s|;
  }

  /** What is read survives anything appended to the buffer. */
  lemma ReadStays(chars: string, more: string, pos: nat)
    requires Terminated(chars, pos)
    ensures Terminated(chars + more, pos) && ReadAt(chars + more, pos) == ReadAt(chars, pos)
  {
    var n := StrLen(chars, pos);
    assert (chars + more)[pos..pos + n] == chars[pos..pos + n];
    ReadsTo(chars + more, pos, chars[pos..pos + n]);
  }

  /** Reading from inside a string gives its ending. */
  lemma {:induction false} ReadEnding(chars: string, pos: nat, skip: nat)
    requires Terminated(chars, pos) && skip <= StrLen(chars, pos)
    ensures Terminated(chars, pos + skip) && ReadAt(chars, pos + skip) == ReadAt(chars, pos)[skip..]
  {
    var n := StrLen(chars, pos);
    var s := chars[pos..pos + n];
    assert chars[pos + skip..pos + n] == s[skip..];
    ReadsTo(chars, pos + skip, s[skip..]);
  }

  lemma NoEntries()
    ensures Flat([]) == ""
  {
  }

  lemma FlatMore(entries: seq<string>, e: string)
    ensures Flat(entries + [e]) == Flat(entries) + e + ['\0']
  {
    assert (entries + [e])[..|entries|] == entries;
  }

  /** Where entry `k` lies. */
  lemma EntryAt(entries: seq<string>, k: nat)
    requires AllClean(entries) && k < |entries|
    ensures var at := |Flat(entries[..k])|;
            && |Flat(entries[..k + 1])| == at + |entries[k]| + 1 <= |Flat(entries)|
            && Terminated(Flat(entries), at) && StrLen(Flat(entries), at) == |entries[k]|
            && ReadAt(Flat(entries), at) == entries[k]
  {
    var at, e := |Flat(entries[..k])|, entries[k];
    assert entries[..k + 1][..k] == entries[..k];
    assert entries == entries[..k + 1] + entries[k + 1..];
    FlatConcat(entries[..k + 1], entries[k + 1..]);
    var all := Flat(entries);
    assert all == Flat(entries[..k]) + e + ['\0'] + Flat(entries[k + 1..]);
    assert all[at..at + |e|] == e;
    ReadsTo(all, at, e);
    assert |all[at..at + StrLen(all, at)]| == |e|;
  }

  /** What `delbypos` does to string `k`: it moves something exactly if the string is not the last one, and then
      it copies from beyond the `count` characters of the list. */
  lemma DeletionOverruns(entries: seq<string>, k: nat)
    requires AllClean(entries) && k < |entries|
    ensures var pos, count := |Flat(entries[..k])|, |Flat(entries)|;
            Terminated(Flat(entries), pos) &&
            var len := StrLen(Flat(entries), pos) + 1;
            (pos + len < count <==> k < |entries| - 1)
            && (pos + len < count ==> pos + len + (count - pos + len) > count)
  {
    EntryAt(entries, k);
    if k < |entries| - 1 {
      EntryAt(entries, k + 1);
    } else {
      assert entries[..k + 1] == entries;
    }
  }

  function FoldChar(c: char): char {
    if 'A' <= c <= 'Z' then (c as int + 32) as char else c
  }

  /** The form in which strings are compared when case does not matter. */
  function Fold(s: string): (r: string)
    ensures |r| == |s|
  {
    seq(|s|, i requires 0 <= i < |s| => FoldChar(s[i]))
  }

  /** Where in an entry a search for `str` succeeds: mode 0 ignores case, mode 2 also takes endings. */
  function Hit(entry: string, str: string, mode: int): Option<nat> {
    if (if mode != 0 then entry == str else Fold(entry) == Fold(str)) then Some(0)
    else if mode == 2 && |str| < |entry| && entry[|entry| - |str|..] == str then Some(|entry| - |str|)
    else None
  }

  /** Entry `k` is the first one the search accepts, and `pos` the position it gives. */
  predicate FirstHit(entries: seq<string>, str: string, mode: int, k: nat, pos: int) {
    && k < |entries|
    && (forall j :: 0 <= j < k ==> Hit(entries[j], str, mode).None?)
    && Hit(entries[k], str, mode).Some?
    && pos == |Flat(entries[..k])| + Hit(entries[k], str, mode).value
  }

  /** A `GrowBuf` of characters. */
  class GrowBuf {
    var chars: string

    constructor ()
      ensures chars == ""
    {
      chars := "";
    }

    method Add(s: string) returns (pos: nat)
      modifies this
      ensures pos == |old(chars)| && chars == old(chars) + s
    {
      pos := |chars|;
      chars := chars + s;
    }
  }

  class StringList {
    var chars: string
    ghost var entries: seq<string>

    ghost predicate Valid()
      reads this
    {
      AllClean(entries) && chars == Flat(entries)
    }

    constructor ()
      ensures Valid() && entries == []
    {
      chars, entries := "", [];
    }

    method Find(str: string, mode: int) returns (pos: int, idx: nat)
      requires Valid()
      ensures pos >= -1
      ensures pos == -1 ==> forall e :: e in entries ==> Hit(e, str, mode).None?
      ensures pos != -1 ==> FirstHit(entries, str, mode, idx, pos)
    {
      hide Flat, StrLen, ReadAt, Fold;
      NoEntries();
      var offs := 0;
      idx := 0;
      while offs < |chars|
        invariant idx <= |entries| && offs == |Flat(entries[..idx])| <= |chars| == |Flat(entries)|
        invariant entries[..|entries|] == entries
        invariant forall j :: 0 <= j < idx ==> Hit(entries[j], str, mode).None?
        decreases |entries| - idx
      {
        EntryAt(entries, idx);
        var entry := ReadAt(chars, offs);
        if (if mode != 0 then entry == str else Fold(entry) == Fold(str)) {
          return offs, idx;
        }
        var length := StrLen(chars, offs);
        if mode == 2 && |str| < length && entry[length - |str|..] == str {
          return offs + length - |str|, idx;
        }
        offs := offs + length + 1;
        idx := idx + 1;
      }
      if idx < |entries| {
        EntryAt(entries, idx);
      }
      pos := -1;
    }

    /** Adds a string unless the search already finds it; mode -1 always adds. */
    method Add(str: string, mode: int) returns (pos: nat)
      requires Valid() && Clean(str)
      modifies this
      ensures Valid()
      ensures mode != -1 && (exists e :: e in old(entries) && Hit(e, str, mode).Some?) ==>
                entries == old(entries) && exists k :: FirstHit(entries, str, mode, k, pos)
      ensures mode == -1 || (forall e :: e in old(entries) ==> Hit(e, str, mode).None?) ==>
                entries == old(entries) + [str] && pos == |Flat(old(entries))|
    {
      var a, k := Find(str, mode);
      if a >= 0 && mode != -1 {
        assert entries[k] in entries;
        return a;
      }
      pos := |chars|;
      chars := chars + str + ['\0'];
      entries := entries + [str];
      assert entries[..|entries| - 1] == old(entries);
    }

    /** Removes the last string, the only one whose removal copies nothing from beyond the end of the list. */
    method DelByPos(pos: nat)
      requires Valid() && entries != [] && pos == |Flat(entries[..|entries| - 1])|
      modifies this
      ensures Valid() && entries == old(entries[..|entries| - 1])
    {
      EntryAt(entries, |entries| - 1);
      assert entries[..|entries|] == entries;
      var len := StrLen(chars, pos) + 1;
      assert pos + len == |chars|;
      chars := chars[..|chars| - len];
      entries := entries[..|entries| - 1];
    }
  }
}
