/**
 Language string references: a negative slot names another slot, and chains of
 references are replaced by the value they end in, in place, slot after slot.
 */
module LangReferences {

  /** Every reference names a slot of the table. */
  ghost predicate InRange(s: seq<int>) {
    forall j :: 0 <= j < |s| && s[j] < 0 ==> -s[j] - 1 < |s|
  }

  /** A value of the table followed `k` references further. */
  ghost function Follow(s: seq<int>, v: int, k: nat): int
    requires InRange(s) && (v < 0 ==> -v - 1 < |s|)
    decreases k
  {
    if k == 0 || v >= 0 then v else Follow(s, s[-v - 1], k - 1)
  }

  /** `w` is what reference `v` becomes after one or more steps. */
  ghost predicate Leads(s: seq<int>, v: int, w: int) {
    && InRange(s) && v < 0 && -v - 1 < |s|
    && exists k: nat :: k >= 1 && Follow(s, v, k) == w
  }

  /** Some chain of direct references runs back into itself. */
  ghost predicate Cyclic(s: seq<int>) {
    exists v: int :: Leads(s, v, v)
  }

  lemma {:induction false} FollowStaysInRange(s: seq<int>, v: int, k: nat)
    requires InRange(s) && (v < 0 ==> -v - 1 < |s|)
    ensures Follow(s, v, k) < 0 ==> -Follow(s, v, k) - 1 < |s|
    decreases k
  {
    if k > 0 && v < 0 {
      FollowStaysInRange(s, s[-v - 1], k - 1);
    }
  }

  lemma {:induction false} FollowAdds(s: seq<int>, v: int, k: nat, l: nat)
    requires InRange(s) && (v < 0 ==> -v - 1 < |s|)
    ensures Follow(s, v, k) < 0 ==> -Follow(s, v, k) - 1 < |s|
    ensures Follow(s, Follow(s, v, k), l) == Follow(s, v, k + l)
    decreases k
  {
    FollowStaysInRange(s, v, k);
    if k > 0 && v < 0 {
      FollowAdds(s, s[-v - 1], k - 1, l);
    }
  }

  lemma LeadsOn(s: seq<int>, u: int, v: int, w: int)
    requires Leads(s, u, v) && Leads(s, v, w)
    ensures Leads(s, u, w)
  {
    var k: nat :| k >= 1 && Follow(s, u, k) == v;
    var l: nat :| l >= 1 && Follow(s, v, l) == w;
    FollowAdds(s, u, k, l);
    assert Follow(s, u, k + l) == w;
  }

  lemma LeadsDirectly(s: seq<int>, t: int)
    requires InRange(s) && 0 <= t < |s|
    ensures Leads(s, -t - 1, s[t])
  {
    assert Follow(s, -t - 1, 1) == s[t];
  }

  lemma {:induction false} Loops(s: seq<int>, v: int, k: nat, rounds: nat)
    requires InRange(s) && v < 0 && -v - 1 < |s| && Follow(s, v, k) == v
    ensures Follow(s, v, rounds * k) == v
    decreases rounds
  {
    if rounds > 0 {
      Loops(s, v, k, rounds - 1);
      FollowAdds(s, v, k, (rounds - 1) * k);
      assert k + (rounds - 1) * k == rounds * k;
    }
  }

  /** A reference that reaches a value is on no cycle. */
  lemma EndedIsNotCyclic(s: seq<int>, v: int, w: int)
    requires Leads(s, v, w) && w >= 0
    ensures !Leads(s, v, v)
  {
    var l: nat :| l >= 1 && Follow(s, v, l) == w;
    forall k: nat | k >= 1 ensures Follow(s, v, k) != v {
      if Follow(s, v, k) == v {
        Loops(s, v, k, l);
        assert l * k >= l;
        FollowAdds(s, v, l, l * k - l);
        assert false;
      }
    }
  }

  /** The value at the end of a chain is unique. */
  lemma EndIsUnique(s: seq<int>, v: int, w: int, w': int)
    requires Leads(s, v, w) && Leads(s, v, w') && w >= 0 && w' >= 0
    ensures w == w'
  {
    var k: nat :| k >= 1 && Follow(s, v, k) == w;
    var l: nat :| l >= 1 && Follow(s, v, l) == w';
    if k <= l {
      FollowAdds(s, v, k, l - k);
    } else {
      FollowAdds(s, v, l, k - l);
    }
  }

  /* ---------- the loop ---------- */

  /** Every slot holds something its own reference leads to. */
  ghost predicate Derived(s: seq<int>, lst: seq<int>) {
    |lst| == |s| && InRange(s) && forall t :: 0 <= t < |s| ==> Leads(s, -t - 1, lst[t])
  }

  lemma DerivedInRange(s: seq<int>, lst: seq<int>)
    requires Derived(s, lst)
    ensures InRange(lst)
  {
    forall t | 0 <= t < |lst| && lst[t] < 0 ensures -lst[t] - 1 < |lst| {
      assert Leads(s, -t - 1, lst[t]);
      var k: nat :| k >= 1 && Follow(s, -t - 1, k) == lst[t];
      FollowStaysInRange(s, -t - 1, k);
    }
  }

  lemma DerivedStep(s: seq<int>, lst: seq<int>, j: int)
    requires Derived(s, lst) && 0 <= j < |lst| && lst[j] < 0
    ensures -lst[j] - 1 < |lst|
    ensures Leads(s, lst[j], lst[-lst[j] - 1]) && Derived(s, lst[j := lst[-lst[j] - 1]])
  {
    DerivedInRange(s, lst);
    var u := -lst[j] - 1;
    assert Leads(s, -u - 1, lst[u]);
    LeadsOn(s, -j - 1, lst[j], lst[u]);
  }

  ghost predicate Distinct(rec: seq<int>) {
    forall i, k :: 0 <= i < k < |rec| ==> rec[i] != rec[k]
  }

  /** A list of distinct references into `n` slots is no longer than `n`. */
  lemma {:induction false} DistinctIsShort(rec: seq<int>, n: int)
    requires n >= 0 && Distinct(rec) && forall i :: 0 <= i < |rec| ==> -n <= rec[i] < 0
    ensures |rec| <= n
    decreases n
  {
    if rec == [] {
    } else if -n in rec {
      assert -n <= rec[0] < 0;
      var i :| 0 <= i < |rec| && rec[i] == -n;
      var rest := rec[..i] + rec[i + 1..];
      assert forall k :: 0 <= k < |rest| ==> rest[k] == rec[if k < i then k else k + 1];
      DistinctIsShort(rest, n - 1);
    } else {
      assert -n <= rec[0] < 0;
      DistinctIsShort(rec, n - 1);
    }
  }

  /** Follows slot `j` to its end; fails when it comes back to a reference already followed. */
  method ResolveSlot(lst: array<int>, j: nat, ghost s: seq<int>) returns (ok: bool)
    requires j < lst.Length && Derived(s, lst[..])
    modifies lst
    ensures Derived(s, lst[..])
    ensures forall t :: 0 <= t < lst.Length && t != j ==> lst[t] == old(lst[t])
    ensures if ok then lst[j] >= 0 else Cyclic(s)
  {
    var rec: seq<int> := [];
    while lst[j] < 0
      invariant Derived(s, lst[..])
      invariant forall t :: 0 <= t < lst.Length && t != j ==> lst[t] == old(lst[t])
      invariant Distinct(rec) && forall i :: 0 <= i < |rec| ==> -lst.Length <= rec[i] < 0 && Leads(s, rec[i], lst[j])
      decreases lst.Length - |rec|
    {
      ghost var now := lst[..];
      var l := 0;
      while l < |rec|
        invariant 0 <= l <= |rec| && lst[..] == now
        invariant forall i :: 0 <= i < l ==> rec[i] != lst[j]
      {
        if rec[l] == lst[j] {
          assert Leads(s, rec[l], rec[l]);
          return false;
        }
        l := l + 1;
      }
      ghost var v := lst[j];
      ghost var before := rec;
      DerivedStep(s, now, j);
      DistinctIsShort(rec + [v], lst.Length);
      rec := rec + [lst[j]];
      lst[j] := lst[-lst[j] - 1];
      assert lst[..] == now[j := now[-v - 1]];
      forall i | 0 <= i < |rec| ensures Leads(s, rec[i], lst[j]) {
        if i < |before| {
          LeadsOn(s, rec[i], v, lst[j]);
        }
      }
    }
    ok := true;
  }

  /** All slots resolved: non-negative, and what the original chains end in. */
  ghost predicate Resolved(s: seq<int>, lst: seq<int>) {
    Derived(s, lst) && forall t :: 0 <= t < |lst| ==> lst[t] >= 0
  }

  lemma ResolvedIsAcyclic(s: seq<int>, lst: seq<int>)
    requires Resolved(s, lst)
    ensures !Cyclic(s)
  {
    forall v: int | Leads(s, v, v) ensures false {
      assert Leads(s, -(-v - 1) - 1, lst[-v - 1]);
      EndedIsNotCyclic(s, v, lst[-v - 1]);
    }
  }

  /** The resolution of one table: fails exactly if the references of the table are cyclic, and
      otherwise leaves in every slot the value at the end of its original chain. */
  method ResolveTable(lst: array<int>) returns (ok: bool)
    requires InRange(lst[..])
    modifies lst
    ensures ok <==> !Cyclic(old(lst[..]))
    ensures ok ==> Resolved(old(lst[..]), lst[..])
  {
    ghost var s := lst[..];
    forall t | 0 <= t < |s| ensures Leads(s, -t - 1, s[t]) {
      LeadsDirectly(s, t);
    }
    var j := 0;
    while j < lst.Length
      invariant 0 <= j <= lst.Length && Derived(s, lst[..])
      invariant forall t :: 0 <= t < j ==> lst[t] >= 0
    {
      var resolved := ResolveSlot(lst, j, s);
      if !resolved {
        return false;
      }
      j := j + 1;
    }
    ResolvedIsAcyclic(s, lst[..]);
    ok := true;
  }

  /** All tables, last first, until one fails: an error is reported exactly if some table has a
      cycle. */
  method ResolveAll(tables: seq<array<int>>) returns (ok: bool)
    requires forall i :: 0 <= i < |tables| ==> InRange(tables[i][..])
    requires forall i, k :: 0 <= i < k < |tables| ==> tables[i] != tables[k]
    modifies tables
    ensures ok <==> forall i :: 0 <= i < |tables| ==> !Cyclic(old(tables[i][..]))
    ensures ok ==> forall i :: 0 <= i < |tables| ==> Resolved(old(tables[i][..]), tables[i][..])
  {
    var i := |tables|;
    while i > 0
      invariant 0 <= i <= |tables|
      invariant forall k :: 0 <= k < i ==> tables[k][..] == old(tables[k][..])
      invariant forall k :: i <= k < |tables| ==>
        !Cyclic(old(tables[k][..])) && Resolved(old(tables[k][..]), tables[k][..])
    {
      i := i - 1;
      var resolved := ResolveTable(tables[i]);
      if !resolved {
        return false;
      }
    }
    ok := true;
  }
}
