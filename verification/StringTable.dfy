/**
 The string table that goes into the installer. Positions are in code units, bytes or
 UTF-16 words, whichever the table holds; the empty string is always at position 0.
 */
module StringTable {
  import opened StringLists

  predicate EndsWith(s: string, suffix: string) {
    |suffix| <= |s| && s[|s| - |suffix|..] == suffix
  }

  ghost predicate SomeEndsWith(entries: seq<string>, suffix: string) {
    exists k :: 0 <= k < |entries| && EndsWith(entries[k], suffix)
  }

  /** No stored string could have shared an earlier one. */
  ghost predicate Shared(entries: seq<string>) {
    forall i, j :: 0 <= i < j < |entries| ==> !EndsWith(entries[i], entries[j])
  }

  class ExeHeadStringList {
    var chars: string
    ghost var entries: seq<string>

    /** Nothing is allocated before the first nonempty string. */
    ghost predicate Valid()
      reads this
    {
      && AllClean(entries) && Shared(entries)
      && if chars == "" then entries == [] else chars == Flat([""] + entries)
    }

    /** What the installer finds. */
    function Storage(): string
      reads this
    {
      if chars == "" then ['\0'] else chars
    }

    constructor ()
      ensures Valid() && entries == [] && Storage() == ['\0']
    {
      chars, entries := "", [];
    }

    /** The position of entry `k`. */
    ghost function At(k: nat): nat
      requires k <= |entries|
      reads this
    {
      |Flat([""] + entries[..k])|
    }

    lemma Ends()
      requires Valid()
      ensures Terminated(Storage(), 0) && ReadAt(Storage(), 0) == ""
      ensures At(0) == 1 && At(|entries|) == |Storage()| && Storage() == Flat([""] + entries)
    {
      var all := [""] + entries;
      assert [""][..0] == [];
      if chars == "" {
        assert all == [""];
      }
      EntryAt(all, 0);
      assert all[..0] == [] && all[..1] == [""] + entries[..0] && entries[..|entries|] == entries;
    }

    /** Entry `k` is what a reader gets at its position, and the next one follows its terminator. */
    lemma EntryIn(k: nat)
      requires Valid() && k < |entries|
      ensures At(k + 1) == At(k) + |entries[k]| + 1 <= |chars|
      ensures Terminated(chars, At(k)) && StrLen(chars, At(k)) == |entries[k]| && ReadAt(chars, At(k)) == entries[k]
    {
      var all := [""] + entries;
      EntryAt(all, k + 1);
      assert all[..k + 1] == [""] + entries[..k] && all[..k + 2] == [""] + entries[..k + 1];
    }

    method Find(str: string) returns (pos: int)
      requires Valid() && Clean(str)
      ensures pos == -1 <==> str != "" && !SomeEndsWith(entries, str)
      ensures pos != -1 ==> pos >= 0 && Terminated(Storage(), pos) && ReadAt(Storage(), pos) == str
    {
      hide Flat, StrLen, ReadAt;
      Ends();
      if str == "" {
        return 0;
      }
      if chars == "" {
        return -1;
      }
      pos := 1;
      ghost var k := 0;
      while pos < |chars|
        invariant k <= |entries| && pos == At(k) <= |chars|
        invariant forall j :: 0 <= j < k ==> !EndsWith(entries[j], str)
        decreases |entries| - k
      {
        EntryIn(k);
        var length := StrLen(chars, pos);
        if |str| <= length {
          var ofs := length - |str|;
          ReadEnding(chars, pos, ofs);
          if ReadAt(chars, pos + ofs) == str {
            return pos + ofs;
          }
        }
        pos := pos + length + 1;
        k := k + 1;
      }
      if k < |entries| {
        EntryIn(k);
      }
      pos := -1;
    }

    /** A string appended to the storage can be read there. */
    lemma Appended(str: string)
      requires Valid() && Clean(str)
      ensures var all := Storage() + str + ['\0'];
              && all == Flat([""] + (entries + [str]))
              && Terminated(all, |Storage()|) && ReadAt(all, |Storage()|) == str
    {
      hide Flat, StrLen, ReadAt;
      Ends();
      var stored, all := [""] + entries, Storage() + str + ['\0'];
      FlatMore(stored, str);
      assert [""] + (entries + [str]) == stored + [str];
      assert all[|Storage()|..|Storage()| + |str|] == str;
      ReadsTo(all, |Storage()|, str);
    }

    /** Returns a position from which the string can be read. The table grows exactly when no stored string
        ends with it, and then by the string and its terminator. */
    method Add(str: string) returns (pos: nat)
      requires Valid() && Clean(str)
      modifies this
      ensures Valid() && Terminated(Storage(), pos) && ReadAt(Storage(), pos) == str
      ensures old(Storage()) <= Storage()
      ensures if str == "" || SomeEndsWith(old(entries), str) then
                Storage() == old(Storage()) && entries == old(entries)
              else
                Storage() == old(Storage()) + str + ['\0'] && entries == old(entries) + [str]
    {
      hide Flat, StrLen, ReadAt;
      Ends();
      Appended(str);
      if chars == "" {
        if str == "" {
          return 0;
        }
        chars := ['\0'];
      }
      var found := Find(str);
      if found != -1 {
        return found;
      }
      pos := |chars|;
      chars := chars + str + ['\0'];
      entries := entries + [str];
    }

    /** The number of strings, the empty one included. */
    method GetNum() returns (num: nat)
      requires Valid()
      ensures num == |entries| + 1
    {
      hide Flat, StrLen, ReadAt;
      Ends();
      if chars == "" {
        return 1;
      }
      num := 1;
      var pos := 1;
      while pos < |chars|
        invariant 1 <= num <= |entries| + 1 && pos == At(num - 1) <= |chars|
        decreases |entries| - num
      {
        EntryIn(num - 1);
        pos := pos + StrLen(chars, pos) + 1;
        num := num + 1;
      }
      if num <= |entries| {
        EntryIn(num - 1);
      }
    }

    /** Over a whole run of additions every position handed out stays good. */
    method AddAll(strs: seq<string>) returns (positions: seq<nat>)
      requires Valid() && AllClean(strs)
      modifies this
      ensures Valid() && AllRead(Storage(), positions, strs)
    {
      hide AllRead, Storage, Terminated, ReadAt;
      positions := [];
      NoneRead(Storage());
      for i := 0 to |strs|
        invariant Valid() && AllRead(Storage(), positions, strs[..i])
      {
        ghost var before := Storage();
        assert strs[i] in strs;
        var pos := Add(strs[i]);
        OneMoreRead(before, Storage(), positions, strs[..i], pos, strs[i]);
        positions := positions + [pos];
        assert strs[..i + 1] == strs[..i] + [strs[i]];
      }
      assert strs[..|strs|] == strs;
    }
  }

  ghost predicate AllRead(storage: string, positions: seq<nat>, strs: seq<string>) {
    && |positions| == |strs|
    && forall i :: 0 <= i < |strs| ==> Terminated(storage, positions[i]) && ReadAt(storage, positions[i]) == strs[i]
  }

  lemma NoneRead(storage: string)
    ensures AllRead(storage, [], [])
  {
  }

  lemma OneMoreRead(before: string, after: string, positions: seq<nat>, strs: seq<string>, pos: nat, str: string)
    requires AllRead(before, positions, strs) && before <= after
    requires Terminated(after, pos) && ReadAt(after, pos) == str
    ensures AllRead(after, positions + [pos], strs + [str])
  {
    hide Terminated, ReadAt;
    assert after == before + after[|before|..];
    forall i | 0 <= i < |strs|
      ensures Terminated(after, positions[i]) && ReadAt(after, positions[i]) == strs[i]
    {
      ReadStays(before, after[|before|..], positions[i]);
    }
  }
}
