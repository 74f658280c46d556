/**
 Filling the language tables: every language string that is used gets its text
 emitted in every language, and emitted texts bring further strings into use,
 until nothing new turns up.
 */
module LangTable {
  import opened LangReferences

  type Label = string

  /** A text: empty, nothing but a reference to another string, or something to be stored, with the
      strings it mentions and the nonzero offset at which the string block will hold it. */
  datatype Text = Empty | Alias(target: Label) | Stored(mentions: seq<Label>, offset: int)

  /** `used` lists the names in the order of their indices; `refs` are the built-in strings whose
      reference count is not zero; `ptrs` are the tables being filled. */
  datatype State = State(used: seq<Label>, refs: set<Label>, texts: seq<map<Label, Text>>, ptrs: seq<seq<int>>)

  predicate BuiltIn(n: Label) {
    n != "" && n[0] == '^'
  }

  function Position(used: seq<Label>, n: Label): (i: int)
    requires n in used
    ensures 0 <= i < |used| && used[i] == n
  {
    if used[|used| - 1] == n then |used| - 1 else Position(used[..|used| - 1], n)
  }

  /** `DefineLangString`: brings a name into use; the result is its reference. */
  function Define(st: State, n: Label): (State, int) {
    var used := if n in st.used then st.used else st.used + [n];
    (st.(used := used, refs := if BuiltIn(n) then st.refs + {n} else st.refs), -Position(used, n) - 1)
  }

  function DefineAll(st: State, names: seq<Label>): State
    decreases |names|
  {
    if names == [] then st else DefineAll(Define(st, names[0]).0, names[1..])
  }

  /** `add_string` for a text that is not empty. */
  function AddString(st: State, t: Text): (State, int)
    requires !t.Empty?
  {
    match t
    case Alias(target) => Define(st, target)
    case Stored(mentions, offset) => (DefineAll(st, mentions), offset)
  }

  /** The names a text mentions. */
  function Mentions(t: Text): seq<Label> {
    match t
    case Empty => []
    case Alias(target) => [target]
    case Stored(mentions, _) => mentions
  }

  function TextOf(texts: map<Label, Text>, n: Label): Text {
    if n in texts then texts[n] else Empty
  }

  /** `FillLanguageTable`: counted built-in strings without a text get their default. */
  function Filled(texts: map<Label, Text>, refs: set<Label>, defaults: map<Label, Text>): map<Label, Text> {
    texts + map n | n in refs && n in defaults && TextOf(texts, n).Empty? :: defaults[n]
  }

  /* ---------- the invariant ---------- */

  /** Names are used once each, and only names from a finite universe closed under mentions turn up. */
  ghost predicate Tidy(st: State, universe: set<Label>, defaults: seq<map<Label, Text>>) {
    && |st.texts| == |st.ptrs| == |defaults|
    && (forall i, k :: 0 <= i < k < |st.used| ==> st.used[i] != st.used[k])
    && (forall n :: n in st.used ==> n in universe)
    && (forall i :: 0 <= i < |defaults| ==>
          WithinUniverse(st.texts[i], universe) && WithinUniverse(defaults[i], universe))
  }

  /** Texts of the universe mention names of the universe only, and what is stored has a nonzero
      offset. */
  ghost predicate WithinUniverse(texts: map<Label, Text>, universe: set<Label>) {
    forall n :: n in texts && n in universe ==>
      && (forall m :: m in Mentions(texts[n]) ==> m in universe)
      && (texts[n].Stored? ==> texts[n].offset > 0)
  }

  /** A slot that is set holds what emitting its text gives, and all the text mentions is in use. */
  ghost predicate SlotRight(st: State, i: nat, k: nat)
    requires i < |st.ptrs| && i < |st.texts| && k < |st.ptrs[i]|
  {
    k < |st.used| && (st.ptrs[i][k] != 0 ==>
      var t := TextOf(st.texts[i], st.used[k]);
      && (forall m :: m in Mentions(t) ==> InUse(st, m))
      && match t
         case Empty => false
         case Alias(target) => target in st.used && st.ptrs[i][k] == -Position(st.used, target) - 1
         case Stored(_, offset) => st.ptrs[i][k] == offset)
  }

  ghost predicate SlotsRight(st: State)
    requires |st.texts| == |st.ptrs|
  {
    forall i, k :: 0 <= i < |st.ptrs| && 0 <= k < |st.ptrs[i]| ==> SlotRight(st, i, k)
  }

  /** The state grows: nothing in use is dropped or renumbered. */
  ghost predicate Grows(st: State, st': State) {
    Brought(st, st') && st'.texts == st.texts && st'.ptrs == st.ptrs
  }

  /** Names are only added, and the built-in strings among the new ones are counted. */
  ghost predicate Brought(st: State, st': State) {
    && st.used <= st'.used && st.refs <= st'.refs
    && forall k :: |st.used| <= k < |st'.used| && st'.used[k] != "" && st'.used[k][0] == '^' ==>
         st'.used[k] in st'.refs
  }

  ghost predicate InUse(st: State, n: Label) {
    n in st.used && (n != "" && n[0] == '^' ==> n in st.refs)
  }

  lemma BroughtOn(a: State, b: State, c: State)
    requires Brought(a, b) && Brought(b, c)
    ensures Brought(a, c)
  {
    forall k | |a.used| <= k < |c.used| && c.used[k] != "" && c.used[k][0] == '^'
      ensures c.used[k] in c.refs
    {
      if k < |b.used| {
        assert b.used[k] == c.used[k];
      }
    }
  }

  lemma PositionUnique(used: seq<Label>, n: Label, i: nat)
    requires i < |used| && used[i] == n && forall k, l :: 0 <= k < l < |used| ==> used[k] != used[l]
    ensures n in used && Position(used, n) == i
  {
    var p := Position(used, n);
  }

  lemma DefineGrows(st: State, n: Label, universe: set<Label>, defaults: seq<map<Label, Text>>)
    requires Tidy(st, universe, defaults) && n in universe
    ensures var (st', r) := Define(st, n);
      Tidy(st', universe, defaults) && Grows(st, st') && InUse(st', n) && r == -Position(st'.used, n) - 1 && r < 0
  {
  }

  lemma {:induction false} DefineAllGrows(st: State, names: seq<Label>, universe: set<Label>,
                                          defaults: seq<map<Label, Text>>)
    requires Tidy(st, universe, defaults) && forall n :: n in names ==> n in universe
    ensures var st' := DefineAll(st, names);
      Tidy(st', universe, defaults) && Grows(st, st') && forall n :: n in names ==> InUse(st', n)
    decreases |names|
  {
    if names != [] {
      hide Tidy;
      var mid := Define(st, names[0]).0;
      DefineGrows(st, names[0], universe, defaults);
      DefineAllGrows(mid, names[1..], universe, defaults);
      BroughtOn(st, mid, DefineAll(mid, names[1..]));
      assert forall n :: n in names ==> n == names[0] || n in names[1..];
    }
  }

  /** Slots stay right when more names come into use. */
  lemma SlotsStayRight(st: State, st': State, universe: set<Label>, defaults: seq<map<Label, Text>>)
    requires Tidy(st, universe, defaults) && Tidy(st', universe, defaults) && Grows(st, st') && SlotsRight(st)
    ensures SlotsRight(st')
  {
    forall i, k | 0 <= i < |st'.ptrs| && 0 <= k < |st'.ptrs[i]| ensures SlotRight(st', i, k) {
      assert SlotRight(st, i, k) && st.used[k] == st'.used[k];
      var t := TextOf(st.texts[i], st.used[k]);
      if t.Alias? && st.ptrs[i][k] != 0 {
        var p := Position(st.used, t.target);
        assert st'.used[p] == t.target;
        PositionUnique(st'.used, t.target, p);
      }
    }
  }

  /* ---------- one slot ---------- */

  /** The slots of the universe that are not set yet. */
  ghost function Unset(st: State, universe: set<Label>): set<(int, Label)> {
    set i: int, n: Label | 0 <= i < |st.ptrs| && n in universe && !IsSet(st, i, n) :: (i, n)
  }

  ghost predicate IsSet(st: State, i: int, n: Label)
    requires 0 <= i < |st.ptrs|
  {
    exists k :: 0 <= k < |st.used| && k < |st.ptrs[i]| && st.used[k] == n && st.ptrs[i][k] != 0
  }

  /** Slots that were set are still set. */
  lemma UnsetShrinks(st: State, st': State, universe: set<Label>)
    requires |st.ptrs| == |st'.ptrs| && st.used <= st'.used
    requires forall i, k :: 0 <= i < |st.ptrs| && 0 <= k < |st.ptrs[i]| && st.ptrs[i][k] != 0 ==>
      k < |st'.ptrs[i]| && st'.ptrs[i][k] != 0
    ensures Unset(st', universe) <= Unset(st, universe)
  {
    forall i, n | 0 <= i < |st.ptrs| && IsSet(st, i, n) ensures IsSet(st', i, n) {
      var k :| 0 <= k < |st.used| && k < |st.ptrs[i]| && st.used[k] == n && st.ptrs[i][k] != 0;
      assert st'.used[k] == n;
    }
  }

  /** The state between two slots of a pass over the first `num` names. */
  ghost predicate MidPass(st: State, num: nat, universe: set<Label>, defaults: seq<map<Label, Text>>) {
    && Tidy(st, universe, defaults) && SlotsRight(st) && num <= |st.used|
    && forall i :: 0 <= i < |st.ptrs| ==> |st.ptrs[i]| == num
  }

  lemma AddStringGrows(st: State, t: Text, universe: set<Label>, defaults: seq<map<Label, Text>>)
    requires Tidy(st, universe, defaults) && !t.Empty? && (forall m :: m in Mentions(t) ==> m in universe)
    requires t.Stored? ==> t.offset > 0
    ensures var (st', v) := AddString(st, t);
      && Tidy(st', universe, defaults) && Grows(st, st') && v != 0
      && (forall m :: m in Mentions(t) ==> InUse(st', m))
      && (t.Alias? ==> t.target in st'.used && v == -Position(st'.used, t.target) - 1)
      && (t.Stored? ==> v == t.offset)
  {
    hide Tidy;
    match t
    case Alias(target) => DefineGrows(st, target, universe, defaults);
    case Stored(mentions, _) => DefineAllGrows(st, mentions, universe, defaults);
  }

  function SetSlot(st: State, i: nat, j: nat, v: int): State
    requires i < |st.ptrs| && j < |st.ptrs[i]|
  {
    st.(ptrs := st.ptrs[i := st.ptrs[i][j := v]])
  }

  lemma SlotSet(st: State, mid: State, i: nat, j: nat, v: int, num: nat, universe: set<Label>,
                defaults: seq<map<Label, Text>>)
    requires MidPass(st, num, universe, defaults) && Tidy(mid, universe, defaults) && Grows(st, mid)
    requires i < |st.ptrs| && j < num && st.ptrs[i][j] == 0 && v != 0
    requires var t := TextOf(st.texts[i], st.used[j]);
      && !t.Empty? && (forall m :: m in Mentions(t) ==> InUse(mid, m))
      && (t.Alias? ==> t.target in mid.used && v == -Position(mid.used, t.target) - 1)
      && (t.Stored? ==> v == t.offset)
    ensures MidPass(SetSlot(mid, i, j, v), num, universe, defaults)
    ensures Unset(SetSlot(mid, i, j, v), universe) < Unset(st, universe)
  {
    var st' := SetSlot(mid, i, j, v);
    SlotsStayRight(st, mid, universe, defaults);
    forall i', k | 0 <= i' < |st'.ptrs| && 0 <= k < |st'.ptrs[i']| ensures SlotRight(st', i', k) {
      assert SlotRight(mid, i', k);
    }
    UnsetShrinks(st, st', universe);
    assert st'.used[j] == st.used[j] && IsSet(st', i, st.used[j]);
    assert (i, st.used[j]) in Unset(st, universe) by {
      assert !IsSet(st, i, st.used[j]);
    }
  }

  /** The innermost step: one string in one language. */
  method Visit(st: State, i: nat, j: nat, num: nat, ghost universe: set<Label>, ghost defaults: seq<map<Label, Text>>)
    returns (st': State, emitted: bool)
    requires MidPass(st, num, universe, defaults) && i < |st.ptrs| && j < num
    ensures MidPass(st', num, universe, defaults) && Brought(st, st') && st'.texts == st.texts
    ensures if emitted then Unset(st', universe) < Unset(st, universe)
            else st' == st && (st.ptrs[i][j] != 0 || TextOf(st.texts[i], st.used[j]).Empty?)
  {
    emitted := false;
    st' := st;
    if st.ptrs[i][j] == 0 {
      var t := TextOf(st.texts[i], st.used[j]);
      if !t.Empty? {
        assert st.used[j] in universe && WithinUniverse(st.texts[i], universe);
        AddStringGrows(st, t, universe, defaults);
        hide Tidy, SlotsRight, SlotRight, Unset;
        var (mid, v) := AddString(st, t);
        SlotSet(st, mid, i, j, v, num, universe, defaults);
        st', emitted := SetSlot(mid, i, j, v), true;
      }
    }
  }

  /** Every string of the first `num` names has its slot set wherever it has a text. */
  ghost predicate NothingToDo(st: State, num: nat) {
    && |st.texts| == |st.ptrs| && num <= |st.used|
    && forall i, k :: 0 <= i < |st.ptrs| && 0 <= k < num ==> SlotIdle(st, i, k)
  }

  ghost predicate SlotIdle(st: State, i: nat, k: nat)
    requires i < |st.ptrs| && i < |st.texts| && k < |st.used|
  {
    k < |st.ptrs[i]| && (st.ptrs[i][k] != 0 || TextOf(st.texts[i], st.used[k]).Empty?)
  }

  /** All languages for one string, last language first. */
  method VisitLanguages(st0: State, j: nat, num: nat, ghost universe: set<Label>, ghost defaults: seq<map<Label, Text>>)
    returns (st: State, emitted: bool)
    requires MidPass(st0, num, universe, defaults) && j < num
    ensures MidPass(st, num, universe, defaults) && Brought(st0, st) && st.texts == st0.texts
    ensures if emitted then Unset(st, universe) < Unset(st0, universe)
            else st == st0 && forall i :: 0 <= i < |st.ptrs| ==> SlotIdle(st, i, j)
  {
    st, emitted := st0, false;
    var i := |st.ptrs|;
    hide Tidy, SlotsRight, SlotRight, Unset;
    while i > 0
      invariant 0 <= i <= |st.ptrs| == |st0.ptrs|
      invariant MidPass(st, num, universe, defaults) && Brought(st0, st) && st.texts == st0.texts
      invariant emitted ==> Unset(st, universe) < Unset(st0, universe)
      invariant !emitted ==> st == st0 && forall i' :: i <= i' < |st.ptrs| ==> SlotIdle(st, i', j)
    {
      i := i - 1;
      var some;
      ghost var before := st;
      st, some := Visit(st, i, j, num, universe, defaults);
      BroughtOn(st0, before, st);
      emitted := emitted || some;
    }
  }

  /** One pass over the strings in use when it starts. */
  method Pass(st0: State, ghost universe: set<Label>, ghost defaults: seq<map<Label, Text>>)
    returns (st: State, emitted: bool)
    requires MidPass(st0, |st0.used|, universe, defaults)
    ensures MidPass(st, |st0.used|, universe, defaults) && Brought(st0, st) && st.texts == st0.texts
    ensures if emitted then Unset(st, universe) < Unset(st0, universe) else st == st0 && NothingToDo(st, |st.used|)
  {
    st, emitted := st0, false;
    var num := |st0.used|;
    var j := 0;
    assert NothingToDo(st, 0);
    hide Tidy, SlotsRight, SlotRight, Unset, SlotIdle;
    while j < num
      invariant 0 <= j <= num
      invariant MidPass(st, num, universe, defaults) && Brought(st0, st) && st.texts == st0.texts
      invariant emitted ==> Unset(st, universe) < Unset(st0, universe)
      invariant !emitted ==> st == st0 && NothingToDo(st, j)
    {
      var some;
      ghost var before := st;
      st, some := VisitLanguages(st, j, num, universe, defaults);
      BroughtOn(st0, before, st);
      emitted := emitted || some;
      j := j + 1;
    }
  }

  /** Slots that hold no index yet. */
  function Unresolved(n: nat): (z: seq<int>)
    ensures |z| == n && forall k :: 0 <= k < n ==> z[k] == 0
  {
    seq(n, _ => 0)
  }

  /** The start of a pass: defaults are filled in and the tables grow to the strings in use. */
  function Prepared(st: State, defaults: seq<map<Label, Text>>): State
    requires |st.texts| == |st.ptrs| == |defaults|
    requires forall i :: 0 <= i < |st.ptrs| ==> |st.ptrs[i]| <= |st.used|
  {
    st.(texts := seq(|defaults|, i requires 0 <= i < |defaults| => Filled(st.texts[i], st.refs, defaults[i])),
        ptrs := seq(|defaults|, i requires 0 <= i < |defaults| => st.ptrs[i] + Unresolved(|st.used| - |st.ptrs[i]|)))
  }

  /** A text that was there at the start is still there; otherwise there is none, or the default of a counted
      built-in string. */
  ghost predicate TextsFrom(start: seq<map<Label, Text>>, texts: seq<map<Label, Text>>, refs: set<Label>,
                            defaults: seq<map<Label, Text>>)
  {
    && |texts| == |start| == |defaults|
    && forall i, n :: 0 <= i < |start| ==> FromAt(start[i], texts[i], refs, defaults[i], n)
  }

  ghost predicate FromAt(start: map<Label, Text>, texts: map<Label, Text>, refs: set<Label>,
                         defaults: map<Label, Text>, n: Label)
  {
    var t := TextOf(texts, n);
    if !TextOf(start, n).Empty? then t == TextOf(start, n)
    else t.Empty? || (n in refs && n in defaults && t == defaults[n])
  }

  /** The same with all the defaults: every counted built-in string that had no text has its default. */
  ghost predicate TextsSupplied(start: seq<map<Label, Text>>, texts: seq<map<Label, Text>>, refs: set<Label>,
                                defaults: seq<map<Label, Text>>)
  {
    && |texts| == |start| == |defaults|
    && forall i, n :: 0 <= i < |start| ==> SuppliedAt(start[i], texts[i], refs, defaults[i], n)
  }

  ghost predicate SuppliedAt(start: map<Label, Text>, texts: map<Label, Text>, refs: set<Label>,
                             defaults: map<Label, Text>, n: Label)
  {
    TextOf(texts, n) ==
      if !TextOf(start, n).Empty? then TextOf(start, n)
      else if n in refs && n in defaults then defaults[n]
      else Empty
  }

  /** A counted built-in string in use that had no text gets the slot of its default. */
  ghost predicate DefaultsEmitted(start: seq<map<Label, Text>>, st: State, defaults: seq<map<Label, Text>>)
    requires |start| == |st.ptrs| == |defaults|
    requires forall i :: 0 <= i < |st.ptrs| ==> |st.ptrs[i]| == |st.used|
  {
    forall i, k :: 0 <= i < |st.ptrs| && 0 <= k < |st.used| && TextOf(start[i], st.used[k]).Empty? ==>
      var n := st.used[k];
      n in st.refs && n in defaults[i] && !defaults[i][n].Empty? ==>
        && st.ptrs[i][k] != 0
        && (defaults[i][n].Stored? ==> st.ptrs[i][k] == defaults[i][n].offset)
  }

  lemma SuppliedIsEmitted(start: seq<map<Label, Text>>, st: State, defaults: seq<map<Label, Text>>)
    requires |st.ptrs| == |st.texts| && TextsSupplied(start, st.texts, st.refs, defaults)
    requires forall i :: 0 <= i < |st.ptrs| ==> |st.ptrs[i]| == |st.used|
    requires forall i, k :: 0 <= i < |st.ptrs| && 0 <= k < |st.used| ==> SlotIdle(st, i, k) && SlotRight(st, i, k)
    ensures DefaultsEmitted(start, st, defaults)
  {
    forall i, k | 0 <= i < |st.ptrs| && 0 <= k < |st.used|
      ensures SuppliedAt(start[i], st.texts[i], st.refs, defaults[i], st.used[k])
      ensures SlotIdle(st, i, k) && SlotRight(st, i, k)
    {
    }
  }

  lemma PrepareSupplies(start: seq<map<Label, Text>>, st: State, defaults: seq<map<Label, Text>>)
    requires |st.texts| == |st.ptrs| == |defaults| && TextsFrom(start, st.texts, st.refs, defaults)
    requires forall i :: 0 <= i < |st.ptrs| ==> |st.ptrs[i]| <= |st.used|
    ensures TextsSupplied(start, Prepared(st, defaults).texts, st.refs, defaults)
  {
    var texts := Prepared(st, defaults).texts;
    forall i, n | 0 <= i < |start|
      ensures SuppliedAt(start[i], texts[i], st.refs, defaults[i], n)
    {
      assert FromAt(start[i], st.texts[i], st.refs, defaults[i], n);
    }
  }

  lemma SuppliedIsFrom(start: seq<map<Label, Text>>, texts: seq<map<Label, Text>>, refs: set<Label>,
                       more: set<Label>, defaults: seq<map<Label, Text>>)
    requires TextsSupplied(start, texts, refs, defaults) && refs <= more
    ensures TextsFrom(start, texts, more, defaults)
  {
    forall i, n | 0 <= i < |start|
      ensures FromAt(start[i], texts[i], more, defaults[i], n)
    {
      assert SuppliedAt(start[i], texts[i], refs, defaults[i], n);
    }
  }

  /** The state between two passes. */
  ghost predicate BetweenPasses(st: State, universe: set<Label>, defaults: seq<map<Label, Text>>) {
    && Tidy(st, universe, defaults) && SlotsRight(st)
    && forall i :: 0 <= i < |st.ptrs| ==> |st.ptrs[i]| <= |st.used|
  }

  lemma PrepareKeeps(st: State, universe: set<Label>, defaults: seq<map<Label, Text>>)
    requires BetweenPasses(st, universe, defaults)
    ensures var st' := Prepared(st, defaults);
      MidPass(st', |st'.used|, universe, defaults) && st'.used == st.used && st'.refs == st.refs
    ensures Unset(Prepared(st, defaults), universe) <= Unset(st, universe)
  {
    var st' := Prepared(st, defaults);
    forall i | 0 <= i < |defaults| ensures WithinUniverse(st'.texts[i], universe) {
      assert WithinUniverse(st.texts[i], universe) && WithinUniverse(defaults[i], universe);
    }
    forall i, k | 0 <= i < |st'.ptrs| && 0 <= k < |st'.ptrs[i]| ensures SlotRight(st', i, k) {
      if st'.ptrs[i][k] != 0 {
        assert SlotRight(st, i, k);
      }
    }
    UnsetShrinks(st, st', universe);
  }

  /** The first part of `GenerateLangTable`.  It terminates for any finite universe; nothing outside
      a set of names closed under mentions ever comes into use; and at the end every string in use
      with a text has its slot set in every language, what its text mentions is in use, and all
      references are within the table. */
  method Fill(st0: State, ghost universe: set<Label>, defaults: seq<map<Label, Text>>) returns (st: State)
    requires BetweenPasses(st0, universe, defaults)
    ensures Brought(st0, st) && TextsSupplied(st0.texts, st.texts, st.refs, defaults)
    ensures |st.ptrs| == |st.texts| == |st0.ptrs| == |st0.texts| == |defaults|
    ensures forall n :: n in st.used ==> n in universe
    ensures forall i :: 0 <= i < |st.ptrs| ==> |st.ptrs[i]| == |st.used| && InRange(st.ptrs[i])
    ensures forall i, k :: 0 <= i < |st.ptrs| && 0 <= k < |st.used| ==> SlotIdle(st, i, k) && SlotRight(st, i, k)
    ensures UseIsClosed(st) && DefaultsEmitted(st0.texts, st, defaults)
  {
    st := st0;
    var tabsset := true;
    while tabsset
      invariant BetweenPasses(st, universe, defaults) && |st.ptrs| == |st0.ptrs|
      invariant Brought(st0, st) && TextsFrom(st0.texts, st.texts, st.refs, defaults)
      invariant !tabsset ==> MidPass(st, |st.used|, universe, defaults) && NothingToDo(st, |st.used|)
      invariant !tabsset ==> TextsSupplied(st0.texts, st.texts, st.refs, defaults)
      decreases Unset(st, universe), tabsset
    {
      PrepareKeeps(st, universe, defaults);
      PrepareSupplies(st0.texts, st, defaults);
      st := Prepared(st, defaults);
      ghost var before := st;
      st, tabsset := Pass(st, universe, defaults);
      BroughtOn(st0, before, st);
      SuppliedIsFrom(st0.texts, st.texts, before.refs, st.refs, defaults);
    }
    FilledWell(st, universe, defaults);
    SuppliedIsEmitted(st0.texts, st, defaults);
  }

  /** Whatever an emitted text mentions is in use, and counted if it is built in. */
  ghost predicate UseIsClosed(st: State) {
    forall i, n, m :: 0 <= i < |st.texts| && n in st.used && m in Mentions(TextOf(st.texts[i], n)) ==> InUse(st, m)
  }

  lemma FilledWell(st: State, universe: set<Label>, defaults: seq<map<Label, Text>>)
    requires MidPass(st, |st.used|, universe, defaults) && NothingToDo(st, |st.used|)
    ensures forall i :: 0 <= i < |st.ptrs| ==> InRange(st.ptrs[i])
    ensures UseIsClosed(st)
  {
    forall i, k | 0 <= i < |st.ptrs| && 0 <= k < |st.ptrs[i]| && st.ptrs[i][k] < 0
      ensures -st.ptrs[i][k] - 1 < |st.ptrs[i]|
    {
      assert SlotRight(st, i, k);
      var t := TextOf(st.texts[i], st.used[k]);
      assert st.used[k] in universe && WithinUniverse(st.texts[i], universe);
      assert t.Alias?;
    }
    forall i, n, m | 0 <= i < |st.texts| && n in st.used && m in Mentions(TextOf(st.texts[i], n))
      ensures InUse(st, m)
    {
      var k :| 0 <= k < |st.used| && st.used[k] == n;
      assert SlotIdle(st, i, k) && SlotRight(st, i, k);
    }
  }

  /** One buffer for each language. */
  method Buffers(ptrs: seq<seq<int>>) returns (tables: seq<array<int>>)
    ensures |tables| == |ptrs| && (forall i :: 0 <= i < |ptrs| ==> fresh(tables[i]) && tables[i][..] == ptrs[i])
    ensures forall i, k :: 0 <= i < k < |tables| ==> tables[i] != tables[k]
  {
    tables := [];
    for n := 0 to |ptrs|
      invariant |tables| == n && forall i :: 0 <= i < n ==> fresh(tables[i]) && tables[i][..] == ptrs[i]
      invariant forall i, k :: 0 <= i < k < n ==> tables[i] != tables[k]
    {
      var table := new int[|ptrs[n]|](i requires 0 <= i < |ptrs[n]| => ptrs[n][i]);
      assert table[..] == ptrs[n];
      tables := tables + [table];
    }
  }

  /** `GenerateLangTable`: fill, then resolve. It fails exactly if the texts of some language refer to each other
      in a circle, and otherwise every slot of every language ends with the value its references lead to. */
  method Generate(st0: State, ghost universe: set<Label>, defaults: seq<map<Label, Text>>)
    returns (ok: bool, st: State, tables: seq<array<int>>)
    requires BetweenPasses(st0, universe, defaults)
    ensures UseIsClosed(st) && |tables| == |st.ptrs| == |st.texts|
    ensures Brought(st0, st) && TextsSupplied(st0.texts, st.texts, st.refs, defaults)
    ensures |st0.texts| == |st.ptrs| == |defaults| && forall i :: 0 <= i < |st.ptrs| ==> |st.ptrs[i]| == |st.used|
    ensures DefaultsEmitted(st0.texts, st, defaults)
    ensures forall i, k :: 0 <= i < |st.ptrs| && 0 <= k < |st.used| ==> SlotIdle(st, i, k) && SlotRight(st, i, k)
    ensures ok <==> forall i :: 0 <= i < |st.ptrs| ==> !Cyclic(st.ptrs[i])
    ensures ok ==> forall i :: 0 <= i < |st.ptrs| ==> Resolved(st.ptrs[i], tables[i][..])
  {
    hide BetweenPasses, UseIsClosed, SlotIdle, SlotRight, InRange, Cyclic, Resolved, Brought, DefaultsEmitted;
    st := Fill(st0, universe, defaults);
    tables := Buffers(st.ptrs);
    ok := ResolveAll(tables);
  }
}
