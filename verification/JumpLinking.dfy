/**
 Jumps in the compiled code: the map that tells which entry begins an instruction,
 relative jumps over instructions, and labels.
 */
module JumpLinking {
  import opened Numbers
  import opened StringLists

  /** A section or function. The final return counts as part of a function, but not of a section. */
  datatype Block = Block(isFunction: bool, code: nat, size: nat)

  datatype Label = Label(name: string, code: nat, flags: nat)

  /** The last entry of a closed block, its return. */
  function Return(b: Block): int {
    if b.isFunction then b.code + b.size - 1 else b.code + b.size
  }

  predicate IsGlobal(name: string) {
    name != "" && name[0] == '.'
  }

  /** How many instructions begin in the first `n` entries. */
  function Begun(map_: seq<int>, n: nat): (k: nat)
    requires n <= |map_|
    ensures k <= n
  {
    if n == 0 then 0 else Begun(map_, n - 1) + if map_[n - 1] == 0 then 1 else 0
  }

  /** The number of the instruction that entry `i` belongs to, counting from one. */
  function Ordinal(map_: seq<int>, i: nat): nat
    requires i < |map_|
  {
    Begun(map_, i + 1)
  }

  /** Entry `i` begins instruction `k`. */
  predicate Begins(map_: seq<int>, i: int, k: int) {
    0 <= i < |map_| && map_[i] == 0 && Ordinal(map_, i) == k
  }

  lemma {:induction false} BegunGrows(map_: seq<int>, m: nat, n: nat)
    requires m <= n <= |map_|
    ensures Begun(map_, m) <= Begun(map_, n)
    ensures (forall i :: m <= i < n ==> map_[i] != 0) ==> Begun(map_, m) == Begun(map_, n)
  {
    if m < n {
      BegunGrows(map_, m, n - 1);
    }
  }

  /** An instruction begins in one place only. */
  lemma BeginsOnce(map_: seq<int>, i: int, j: int, k: int)
    requires Begins(map_, i, k) && Begins(map_, j, k)
    ensures i == j
  {
    if i < j {
      BegunGrows(map_, i + 1, j);
    } else if j < i {
      BegunGrows(map_, j + 1, i);
    }
  }

  /** Every instruction there is begins somewhere. */
  lemma {:induction false} BeginsSomewhere(map_: seq<int>, k: nat, n: nat) returns (i: nat)
    requires n <= |map_| && 0 < k <= Begun(map_, n)
    ensures Begins(map_, i, k) && i < n
  {
    if map_[n - 1] == 0 && Begun(map_, n) == k {
      i := n - 1;
    } else {
      i := BeginsSomewhere(map_, k, n - 1);
    }
  }

  /** The instructions that exist are those counted. */
  lemma InstructionExists(map_: seq<int>, k: int)
    ensures (exists i :: Begins(map_, i, k)) <==> 1 <= k <= Begun(map_, |map_|)
  {
    if 1 <= k <= Begun(map_, |map_|) {
      var i := BeginsSomewhere(map_, k, |map_|);
    }
    forall i | Begins(map_, i, k)
      ensures 1 <= k <= Begun(map_, |map_|)
    {
      BegunGrows(map_, i + 1, |map_|);
    }
  }

  /** The map of a program whose last instruction is a return: the code of every block ends with one. */
  predicate Complete(map_: seq<int>) {
    map_ != [] && map_[0] == 0 && map_[|map_| - 1] == 0
  }

  /** The place that stands for instruction `k`: its first entry, or a position outside the program. */
  predicate Place(map_: seq<int>, at: int, k: int) {
    var count := Begun(map_, |map_|);
    if k < 1 then at + 1 == k
    else if k <= count then Begins(map_, at, k)
    else at == |map_| + k - count - 1
  }

  /** The instruction one step from `from` in a direction. */
  function Neighbour(map_: seq<int>, from: nat, direction: int): int
    requires from < |map_|
  {
    if direction == 1 then Ordinal(map_, from) + 1
    else if map_[from] == 0 then Ordinal(map_, from) - 1
    else Ordinal(map_, from)
  }

  /** One instruction further, or one position further outside the program. */
  method Step(map_: seq<int>, from: int, direction: int) returns (at: int)
    requires Complete(map_) && (direction == 1 || direction == -1)
    requires if direction == 1 then 0 <= from else from < |map_|
    ensures if 0 <= from < |map_| then Place(map_, at, Neighbour(map_, from, direction)) else at == from + direction
  {
    at := from + direction;
    if 0 <= at < |map_| {
      while map_[at] != 0
        invariant 0 <= at < |map_| && (if direction == 1 then from < at else at < from)
        invariant if direction == 1 then from >= 0 ==> Begun(map_, at) == Begun(map_, from + 1)
                  else Begun(map_, at + 1) == Begun(map_, from)
        decreases if direction == 1 then |map_| - at else at
      {
        at := at + direction;
      }
      BegunGrows(map_, at + 1, |map_|);
      BegunGrows(map_, 1, at + 1);
      assert Begun(map_, 1) == Begun(map_, 0) + 1;
    }
  }

  /** Where a jump of `jump` instructions from entry `offs` goes. Backwards, the first step from an entry that
      does not begin its instruction only goes to the start of that instruction. */
  function Reached(map_: seq<int>, offs: nat, jump: int): int
    requires offs < |map_|
  {
    Ordinal(map_, offs) + jump + if jump < 0 && map_[offs] != 0 then 1 else 0
  }

  /** `+n` and `-n` from entry `offs`. A target is stored as its position plus one. */
  method ResolveRelative(map_: seq<int>, offs: nat, jump: int) returns (a: int)
    requires Complete(map_) && offs < |map_|
    ensures if jump == 0 then a == offs + 1 else Place(map_, a - 1, Reached(map_, offs, jump))
  {
    var left, direction, at: int := jump, 1, offs;
    if left < 0 {
      direction := -1;
    }
    BegunGrows(map_, offs + 1, |map_|);
    while left != 0
      invariant direction == (if jump < 0 then -1 else 1) && 0 <= left * direction <= jump * direction
      invariant if left == jump then at == offs else Place(map_, at, Reached(map_, offs, jump - left))
      invariant if direction == 1 then 0 <= at else at < |map_|
      decreases left * direction
    {
      at := Step(map_, at, direction);
      left := left - direction;
    }
    a := at + 1;
  }

  /** A jump reaches the instruction `n` further exactly unless it goes back from an entry that does not begin
      its own instruction. */
  lemma JumpIsExact(map_: seq<int>, offs: nat, jump: int, a: int)
    requires Complete(map_) && offs < |map_| && jump != 0
    requires 1 <= Ordinal(map_, offs) + jump <= Begun(map_, |map_|)
    requires Place(map_, a - 1, Reached(map_, offs, jump))
    ensures Begins(map_, a - 1, Ordinal(map_, offs) + jump) <==> jump > 0 || map_[offs] == 0
  {
  }

  /* ---------- building the code ---------- */

  predicate Declared(labels: seq<Label>, i: nat, name: string) {
    i < |labels| && labels[i].name == name
  }

  /** Blocks follow each other, and all but an open last one have ended with their return. */
  predicate Contiguous(blocks: seq<Block>, open: bool, entries: nat) {
    && (forall i :: 0 <= i < |blocks| - 1 ==>
          blocks[i].code <= Return(blocks[i]) && blocks[i + 1].code == Return(blocks[i]) + 1)
    && (blocks == [] ==> !open && entries == 0)
    && (blocks != [] ==>
          var last := blocks[|blocks| - 1];
          if open then entries == last.code + last.size
          else last.code <= Return(last) && entries == Return(last) + 1)
  }

  /** Every label lies in its home block, no later than the return. */
  predicate Housed(labels: seq<Label>, home: seq<nat>, blocks: seq<Block>, open: bool) {
    && |home| == |labels|
    && (forall i, j :: 0 <= i < j < |home| ==> home[i] <= home[j])
    && forall i :: 0 <= i < |home| ==>
         && home[i] < |blocks| && blocks[home[i]].code <= labels[i].code
         && labels[i].code <= (if open && home[i] == |blocks| - 1 then blocks[home[i]].code + blocks[home[i]].size
                               else Return(blocks[home[i]]))
  }

  /** No name is declared twice in a block, and no global name twice at all. */
  predicate Unique(labels: seq<Label>, home: seq<nat>) {
    && |home| == |labels|
    && forall i, j :: 0 <= i < j < |labels| && labels[i].name == labels[j].name ==>
         home[i] != home[j] && !IsGlobal(labels[i].name)
  }

  lemma {:induction false} BlocksInOrder(blocks: seq<Block>, open: bool, entries: nat, i: nat, j: nat)
    requires Contiguous(blocks, open, entries) && i < j < |blocks|
    ensures Return(blocks[i]) < blocks[j].code
    decreases j
  {
    if i < j - 1 {
      BlocksInOrder(blocks, open, entries, i, j - 1);
    }
  }

  /** The mark of entry `i`: whether the entry before it belongs to the same command. */
  function Mark(owner: seq<nat>, i: nat): int
    requires i < |owner|
  {
    if i > 0 && owner[i] == owner[i - 1] then 1 else 0
  }

  ghost predicate Marked(entryMap: seq<int>, multipleEntries: int, owner: seq<nat>, commands: nat) {
    && |owner| == |entryMap|
    && (forall i :: 0 <= i < |owner| ==> owner[i] <= commands)
    && (forall i, j :: 0 <= i < j < |owner| ==> owner[i] <= owner[j])
    && (forall i :: 0 <= i < |owner| ==> entryMap[i] == Mark(owner, i))
    && multipleEntries == if owner != [] && owner[|owner| - 1] == commands then 1 else 0
  }

  lemma MarkedMore(entryMap: seq<int>, multipleEntries: int, owner: seq<nat>, commands: nat)
    requires Marked(entryMap, multipleEntries, owner, commands)
    ensures Marked(entryMap + [multipleEntries], 1, owner + [commands], commands)
    ensures Marked(entryMap, 0, owner, commands + 1)
  {
    forall i | 0 <= i < |owner|
      ensures Mark(owner + [commands], i) == Mark(owner, i)
    {
    }
  }

  /** Entries that carry jumps begin their instruction. */
  predicate JumpsFirst(entryMap: seq<int>, jumps: seq<seq<string>>) {
    |jumps| == |entryMap| && forall i :: 0 <= i < |jumps| && jumps[i] != [] ==> entryMap[i] == 0
  }

  /** The compiler's lists, for one of the two modes. */
  class Compiler {
    const uninstall: bool
    var entryMap: seq<int>
    /** The jump targets of each entry, as written. */
    var jumps: seq<seq<string>>
    var multipleEntries: int
    var labels: seq<Label>
    var blocks: seq<Block>
    var open: bool
    /** The command each entry was added for, the commands so far, and the block each label was declared in. */
    ghost var owner: seq<nat>
    ghost var commands: nat
    ghost var home: seq<nat>

    ghost predicate Valid()
      reads this
    {
      && Marked(entryMap, multipleEntries, owner, commands) && Contiguous(blocks, open, |entryMap|)
      && Housed(labels, home, blocks, open) && Unique(labels, home) && JumpsFirst(entryMap, jumps)
      && (!open && entryMap != [] ==> entryMap[|entryMap| - 1] == 0)
    }

    constructor (uninstall: bool)
      ensures Valid() && !open && this.uninstall == uninstall
      ensures entryMap == [] && jumps == [] && blocks == [] && labels == [] && home == []
    {
      hide Marked, Contiguous, Housed, Unique, JumpsFirst;
      NoCode();
      NoBlocks();
      NoLabels();
      NoHomes();
      this.uninstall, jumps := uninstall, [];
      entryMap, multipleEntries, labels, blocks, open := [], 0, [], [], false;
      owner, commands, home := [], 0, [];
    }

    /** `doCommand` starts another instruction. */
    method BeginCommand()
      requires Valid()
      modifies this`multipleEntries, this`commands
      ensures Valid() && commands == old(commands) + 1 && multipleEntries == 0
    {
      hide Marked, Contiguous, Housed, Unique;
      MarkedMore(entryMap, multipleEntries, owner, commands);
      multipleEntries := 0;
      commands := commands + 1;
    }

    /** `add_entry`, with the jump targets of the entry. A command puts jumps into its first entry only.
        Without an open block this is an error, which the source tests for in install mode. */
    method AddEntry(targets: seq<string>) returns (ok: bool)
      requires Valid() && (uninstall ==> open) && (targets != [] ==> multipleEntries == 0)
      modifies this`entryMap, this`jumps, this`owner, this`multipleEntries, this`blocks
      ensures Valid() && ok == open
      ensures !ok ==> entryMap == old(entryMap) && jumps == old(jumps) && owner == old(owner) && blocks == old(blocks)
      ensures ok ==> entryMap == old(entryMap) + [old(multipleEntries)] && owner == old(owner) + [commands]
      ensures ok ==> jumps == old(jumps) + [targets]
      ensures ok ==> old(blocks) != [] && multipleEntries == 1 &&
                     var last := old(blocks)[|old(blocks)| - 1];
                     blocks == old(blocks)[|old(blocks)| - 1 := last.(size := last.size + 1)]
    {
      hide Marked, Contiguous, Housed, Unique, JumpsFirst;
      if !uninstall && !open {
        return false;
      }
      LastIsOpen(blocks, |entryMap|);
      EntryAdded(labels, home, blocks, |entryMap|);
      JumpAdded(entryMap, jumps, multipleEntries, targets);
      MarkedMore(entryMap, multipleEntries, owner, commands);
      entryMap := entryMap + [multipleEntries];
      jumps := jumps + [targets];
      owner := owner + [commands];
      var last := blocks[|blocks| - 1];
      blocks := blocks[|blocks| - 1 := last.(size := last.size + 1)];
      multipleEntries := 1;
      ok := true;
    }

    method OpenBlock(isFunction: bool) returns (ok: bool)
      requires Valid()
      modifies this`blocks, this`open
      ensures Valid() && ok == !old(open)
      ensures ok ==> open && blocks == old(blocks) + [Block(isFunction, |entryMap|, 0)]
      ensures !ok ==> open && blocks == old(blocks)
    {
      hide Marked, Unique;
      if open {
        return false;
      }
      blocks := blocks + [Block(isFunction, |entryMap|, 0)];
      open := true;
      ok := true;
    }

    /** `SectionEnd` and `FunctionEnd`: an instruction of its own, the return, and only for a block of
        the right kind. */
    method CloseBlock(isFunction: bool) returns (ok: bool)
      requires Valid()
      modifies this`entryMap, this`jumps, this`owner, this`commands, this`multipleEntries, this`blocks, this`open
      ensures Valid() && ok == (old(open) && old(blocks) != []
                                && old(blocks)[|old(blocks)| - 1].isFunction == isFunction)
      ensures ok ==> !open && entryMap == old(entryMap) + [0] && |blocks| == |old(blocks)|
                     && Return(blocks[|blocks| - 1]) == |old(entryMap)| && blocks[|blocks| - 1].isFunction == isFunction
                     && blocks[|blocks| - 1].code == old(blocks)[|blocks| - 1].code
                     && (forall i :: 0 <= i < |blocks| - 1 ==> blocks[i] == old(blocks)[i])
      ensures !ok ==> open == old(open) && entryMap == old(entryMap) && blocks == old(blocks)
    {
      hide Unique, Marked, Contiguous, Housed, JumpsFirst;
      BeginCommand();
      if !open {
        return false;
      }
      LastIsOpen(blocks, |entryMap|);
      if blocks[|blocks| - 1].isFunction != isFunction {
        return false;
      }
      Closed(labels, home, blocks, |entryMap|);
      ok := AddEntry([]);
      var last := blocks[|blocks| - 1];
      if !isFunction {
        blocks := blocks[|blocks| - 1 := last.(size := last.size - 1)];
        assert blocks == old(blocks)[|blocks| - 1 := old(blocks)[|blocks| - 1]];
      }
      open := false;
    }

    /** Declares a label, given with its colon; names are compared in their folded form. */
    method AddLabel(name: string) returns (ok: bool)
      requires Valid() && name != ""
      modifies this`labels, this`home
      ensures Valid()
      ensures var p := LabelName(name);
              ok == (old(open) && !BadLabel(name) &&
                     !exists i: nat :: Declared(old(labels), i, p) && (IsGlobal(name) || old(home)[i] == |blocks| - 1))
      ensures ok ==>
        labels == old(labels) + [Label(LabelName(name), |entryMap|, 0)] && home == old(home) + [|blocks| - 1]
      ensures !ok ==> labels == old(labels) && home == old(home)
    {
      hide Marked, Contiguous, Housed, Unique;
      if !open || BadLabel(name) {
        return false;
      }
      LastIsOpen(blocks, |entryMap|);
      var cs := blocks[|blocks| - 1].code;
      var ce := cs + blocks[|blocks| - 1].size;
      var p := LabelName(name);
      GlobalName(name);
      HomesKnown(labels, home, blocks, open);
      var i := 0;
      while i < |labels|
        invariant i <= |labels| && labels == old(labels) && home == old(home)
        invariant forall j :: 0 <= j < i && labels[j].name == p ==> !IsGlobal(name) && home[j] != |blocks| - 1
      {
        CurrentInRange(labels, home, blocks, |entryMap|, i);
        if (IsGlobal(name) || cs <= labels[i].code <= ce) && labels[i].name == p {
          assert Declared(labels, i, p);
          return false;
        }
        i := i + 1;
      }
      LabelAdded(labels, home, blocks, |entryMap|, p);
      labels := labels + [Label(p, ce, 0)];
      home := home + [|blocks| - 1];
      ok := true;
    }

    /** Resolves a target of the jumps in entry `offs` of block `b`. `+n` and `-n` reach the first entry of the
        instruction so many further whenever there is one. */
    method ResolveJump(b: nat, offs: nat, name: string) returns (a: int, ok: bool)
      requires Valid() && !open && b < |blocks| && offs < |entryMap| && name in jumps[offs]
      modifies this`labels
      ensures Valid()
      ensures IsRelative(name) ==>
                var k := Ordinal(entryMap, offs) + SignedNumber(name);
                ok && labels == old(labels) && Place(entryMap, a - 1, k)
                  && (forall i :: Begins(entryMap, i, k) ==> a == i + 1)
      ensures !IsRelative(name) ==>
                && (ok <==> exists i: nat :: Resolves(old(labels), home, blocks, b, name, i))
                && (forall i: nat :: Declared(old(labels), i, name) && (IsGlobal(name) || home[i] == b) ==>
                      a == old(labels)[i].code + 1)
    {
      if IsRelative(name) {
        hide Marked, Contiguous, Housed, Unique;
        CompleteCode(entryMap, multipleEntries, owner, commands);
        a := ResolveRelative(entryMap, offs, SignedNumber(name));
        FirstReaches(entryMap, jumps, offs, SignedNumber(name), a);
        return a, true;
      }
      a, ok := ResolveLabel(b, name);
    }

    /** Resolves a label for a jump in block `b`, one of the closed ones. */
    method ResolveLabel(b: nat, name: string) returns (a: nat, ok: bool)
      requires Valid() && !open && b < |blocks|
      modifies this`labels
      ensures Valid()
      ensures ok <==> exists i: nat :: Resolves(old(labels), home, blocks, b, name, i)
      ensures forall i: nat :: Declared(old(labels), i, name) && (IsGlobal(name) || home[i] == b) ==>
                ok && a == old(labels)[i].code + 1
      ensures ok ==> exists i: nat :: Resolves(old(labels), home, blocks, b, name, i) && a == old(labels)[i].code + 1
                                 && labels == old(labels)[i := old(labels)[i].(flags := old(labels)[i].flags + 1)]
      ensures !ok ==> labels == old(labels)
    {
      hide Marked, Contiguous, Housed, Unique;
      HomesKnown(labels, home, blocks, open);
      var start := blocks[b].code;
      var end := start + blocks[b].size;
      var i := 0;
      while i < |labels|
        invariant i <= |labels| && labels == old(labels) && |home| == |labels|
        invariant forall j :: 0 <= j < i && labels[j].name == name ==> !IsGlobal(name) && home[j] != b
        invariant forall j: nat :: j < i ==> !Resolves(labels, home, blocks, b, name, j)
      {
        if (IsGlobal(name) || start <= labels[i].code <= end) && labels[i].name == name {
          if !IsGlobal(name) {
            HomeOfResolved(labels, home, blocks, |entryMap|, b, i);
          }
          assert Resolves(old(labels), home, blocks, b, name, i);
          OwnComesFirst(labels, home, blocks, b, name, i);
          FlagKeeps(labels, home, blocks, i);
          a := labels[i].code + 1;
          labels := labels[i := labels[i].(flags := labels[i].flags + 1)];
          return a, true;
        }
        ResolvedInRange(labels, home, blocks, |entryMap|, b, name, i);
        i := i + 1;
      }
      return 0, false;
    }
  }

  /** Entries carry the same number exactly if they were added for the same command. */
  lemma {:induction false} OrdinalIsOwner(entryMap: seq<int>, multiple: int, owner: seq<nat>, commands: nat, i: nat,
                                          j: nat)
    requires Marked(entryMap, multiple, owner, commands) && i <= j < |owner|
    ensures Ordinal(entryMap, i) <= Ordinal(entryMap, j)
    ensures Ordinal(entryMap, i) == Ordinal(entryMap, j) <==> owner[i] == owner[j]
    decreases j
  {
    if i < j {
      OrdinalIsOwner(entryMap, multiple, owner, commands, i, j - 1);
      assert entryMap[j] == Mark(owner, j);
      assert owner[i] <= owner[j - 1] <= owner[j];
    }
  }

  predicate IsDigit(c: char) {
    '0' <= c <= '9'
  }

  function DigitsFrom(s: string, i: nat, v: nat): nat
    requires i <= |s|
    decreases |s| - i
  {
    if i < |s| && IsDigit(s[i]) then DigitsFrom(s, i + 1, 10 * v + (s[i] as int - '0' as int)) else v
  }

  lemma {:induction false} DigitsRead(s: string, i: nat, v: nat)
    requires i <= |s| && AllDigits(s[i..])
    ensures DigitsFrom(s, i, v) == v * Power(|s| - i) + DecimalValue(s[i..])
    decreases |s| - i
  {
    var t := s[i..];
    if t != "" {
      assert t[1..] == s[i + 1..];
      forall k | 0 <= k < |t[1..]|
        ensures '0' <= t[1..][k] <= '9'
      {
        assert t[1..][k] == t[k + 1];
      }
      var d := s[i] as int - 48;
      DigitsRead(s, i + 1, 10 * v + d);
      FirstDigit(t);
      Spread(v, d, Power(|t| - 1));
    }
  }

  lemma Spread(v: nat, d: nat, p: nat)
    ensures (10 * v + d) * p == v * (10 * p) + d * p
  {
  }

  function Power(n: nat): nat {
    if n == 0 then 1 else 10 * Power(n - 1)
  }

  lemma {:induction false} FirstDigit(t: string)
    requires t != "" && AllDigits(t)
    ensures AllDigits(t[1..]) && DecimalValue(t) == (t[0] as int - 48) * Power(|t| - 1) + DecimalValue(t[1..])
    decreases |t|
  {
    var rest := t[1..];
    if rest != "" {
      var front := t[..|t| - 1];
      FirstDigit(front);
      assert front[1..] == rest[..|rest| - 1];
      assert Power(|t| - 1) == 10 * Power(|front| - 1);
      var d := t[0] as int - 48;
      assert 10 * (d * Power(|front| - 1)) == d * Power(|t| - 1);
    } else {
      assert t[..0] == "";
    }
  }

  /** A signed decimal number. */
  lemma SignedNumberReads(digits: string)
    requires AllDigits(digits)
    ensures SignedNumber("+" + digits) == DecimalValue(digits) && SignedNumber("-" + digits) == 0 - DecimalValue(digits)
  {
    assert ("+" + digits)[1..] == digits && ("-" + digits)[1..] == digits;
    DigitsRead("+" + digits, 1, 0);
    DigitsRead("-" + digits, 1, 0);
  }

  /** `atoi` on a text that starts with a sign. */
  function SignedNumber(s: string): int
    requires s != ""
  {
    if s[0] == '-' then 0 - DigitsFrom(s, 1, 0) else DigitsFrom(s, 1, 0)
  }

  predicate IsRelative(name: string) {
    name != "" && (name[0] == '-' || name[0] == '+')
  }

  /** A jump from an entry that begins its instruction reaches the instruction it counts to. */
  lemma FirstReaches(entryMap: seq<int>, jumps: seq<seq<string>>, offs: nat, jump: int, a: int)
    requires JumpsFirst(entryMap, jumps) && offs < |entryMap| && jumps[offs] != []
    requires if jump == 0 then a == offs + 1 else Place(entryMap, a - 1, Reached(entryMap, offs, jump))
    ensures var k := Ordinal(entryMap, offs) + jump;
            Place(entryMap, a - 1, k) && forall i :: Begins(entryMap, i, k) ==> a == i + 1
  {
    var k := Ordinal(entryMap, offs) + jump;
    BegunGrows(entryMap, offs + 1, |entryMap|);
    BegunGrows(entryMap, 0, offs);
    InstructionExists(entryMap, k);
    forall i | Begins(entryMap, i, k)
      ensures a == i + 1
    {
      BeginsOnce(entryMap, i, a - 1, k);
    }
  }

  lemma CompleteCode(entryMap: seq<int>, multiple: int, owner: seq<nat>, commands: nat)
    requires Marked(entryMap, multiple, owner, commands) && entryMap != [] && entryMap[|entryMap| - 1] == 0
    ensures Complete(entryMap)
  {
    assert entryMap[0] == Mark(owner, 0);
  }

  lemma NoCode()
    ensures Marked([], 0, [], 0) && JumpsFirst([], [])
  {
  }

  lemma NoBlocks()
    ensures Contiguous([], false, 0)
  {
  }

  lemma NoLabels()
    ensures Unique([], [])
  {
  }

  lemma NoHomes()
    ensures Housed([], [], [], false)
  {
  }

  lemma EntryAdded(labels: seq<Label>, home: seq<nat>, blocks: seq<Block>, entries: nat)
    requires blocks != [] && Contiguous(blocks, true, entries) && Housed(labels, home, blocks, true)
    ensures var last := blocks[|blocks| - 1];
            var grown := blocks[|blocks| - 1 := last.(size := last.size + 1)];
            Contiguous(grown, true, entries + 1) && Housed(labels, home, grown, true)
  {
  }

  lemma JumpAdded(entryMap: seq<int>, jumps: seq<seq<string>>, mark: int, targets: seq<string>)
    requires JumpsFirst(entryMap, jumps) && (targets != [] ==> mark == 0)
    ensures JumpsFirst(entryMap + [mark], jumps + [targets])
  {
  }

  lemma LastIsOpen(blocks: seq<Block>, entries: nat)
    requires Contiguous(blocks, true, entries)
    ensures blocks != [] && var last := blocks[|blocks| - 1]; entries == last.code + last.size
  {
  }

  lemma Closed(labels: seq<Label>, home: seq<nat>, blocks: seq<Block>, entries: nat)
    requires blocks != [] && Contiguous(blocks, true, entries) && Housed(labels, home, blocks, true)
    ensures var last := blocks[|blocks| - 1];
            var closed := blocks[|blocks| - 1 := if last.isFunction then last.(size := last.size + 1) else last];
            Contiguous(closed, false, entries + 1) && Housed(labels, home, closed, false)
            && Return(closed[|blocks| - 1]) == entries
  {
  }

  /** While a block is open, the labels in its range are its own. */
  lemma CurrentInRange(labels: seq<Label>, home: seq<nat>, blocks: seq<Block>, entries: nat, i: nat)
    requires Contiguous(blocks, true, entries) && Housed(labels, home, blocks, true) && i < |labels|
    ensures var last := blocks[|blocks| - 1];
            home[i] == |blocks| - 1 <==> last.code <= labels[i].code <= last.code + last.size
  {
    if home[i] < |blocks| - 1 {
      BlocksInOrder(blocks, true, entries, home[i], |blocks| - 1);
    }
  }

  lemma LabelAdded(labels: seq<Label>, home: seq<nat>, blocks: seq<Block>, entries: nat, p: string)
    requires Contiguous(blocks, true, entries) && Housed(labels, home, blocks, true) && Unique(labels, home)
    requires forall j :: 0 <= j < |labels| && labels[j].name == p ==> !IsGlobal(p) && home[j] != |blocks| - 1
    ensures var more, homes := labels + [Label(p, entries, 0)], home + [|blocks| - 1];
            Housed(more, homes, blocks, true) && Unique(more, homes)
  {
  }

  lemma HomesKnown(labels: seq<Label>, home: seq<nat>, blocks: seq<Block>, open: bool)
    requires Housed(labels, home, blocks, open)
    ensures |home| == |labels|
  {
  }

  lemma ResolvedInRange(labels: seq<Label>, home: seq<nat>, blocks: seq<Block>, entries: nat, b: nat, name: string,
                        i: nat)
    requires Contiguous(blocks, false, entries) && Housed(labels, home, blocks, false) && i < |labels| && b < |blocks|
    ensures home[i] == b || Resolves(labels, home, blocks, b, name, i) ==>
              IsGlobal(name) || blocks[b].code <= labels[i].code <= blocks[b].code + blocks[b].size
  {
  }

  lemma FlagKeeps(labels: seq<Label>, home: seq<nat>, blocks: seq<Block>, i: nat)
    requires Housed(labels, home, blocks, false) && Unique(labels, home) && i < |labels|
    ensures var flagged := labels[i := labels[i].(flags := labels[i].flags + 1)];
            Housed(flagged, home, blocks, false) && Unique(flagged, home)
  {
  }

  /** What is found first is the block's own declaration, or the global one, if there is one. */
  lemma OwnComesFirst(labels: seq<Label>, home: seq<nat>, blocks: seq<Block>, b: nat, name: string, i: nat)
    requires Housed(labels, home, blocks, false) && Unique(labels, home)
    requires b < |blocks| && i < |labels| && Resolves(labels, home, blocks, b, name, i)
    requires forall j :: 0 <= j < i && labels[j].name == name ==> !IsGlobal(name) && home[j] != b
    ensures forall j: nat :: Declared(labels, j, name) && (IsGlobal(name) || home[j] == b) ==> j == i
  {
  }

  /** The name without its colon, in the form in which names are compared. */
  function LabelName(name: string): string
    requires name != ""
  {
    Fold(if name[|name| - 1] == ':' then name[..|name| - 1] else name)
  }

  lemma GlobalName(name: string)
    requires name != "" && !BadLabel(name)
    ensures LabelName(name) != "" && (IsGlobal(LabelName(name)) <==> IsGlobal(name))
  {
  }

  predicate BadLabel(name: string)
    requires name != ""
  {
    '0' <= name[0] <= '9' || name[0] in "- :"
  }

  /** Labels by their characters: which are refused, what name is kept, and which are global. */
  lemma LabelRules(c: char, rest: string)
    ensures BadLabel([c] + rest) <==> c in "0123456789- :"
    ensures ':' !in [c] + rest ==> LabelName([c] + rest + ":") == LabelName([c] + rest) == Fold([c] + rest)
    ensures IsGlobal([c] + rest) <==> c == '.'
    ensures IsRelative([c] + rest) <==> c == '+' || c == '-'
  {
    var name := [c] + rest;
    assert name[0] == c && (name + ":")[..|name + ":"| - 1] == name && (name + ":")[|name|] == ':';
    assert name[|name| - 1] in name;
  }

  /** A jump in block `b` finds a global label, one of its own block or, at the end of a function, the
      first position of the block that follows. */
  predicate Resolves(labels: seq<Label>, home: seq<nat>, blocks: seq<Block>, b: nat, name: string, i: nat) {
    && Declared(labels, i, name) && i < |home| && b < |blocks|
    && (IsGlobal(name) || home[i] == b
        || (blocks[b].isFunction && home[i] == b + 1 < |blocks| && labels[i].code == blocks[b + 1].code))
  }

  lemma HomeOfResolved(labels: seq<Label>, home: seq<nat>, blocks: seq<Block>, entries: nat, b: nat, i: nat)
    requires Contiguous(blocks, false, entries) && Housed(labels, home, blocks, false)
    requires b < |blocks| && i < |labels| && blocks[b].code <= labels[i].code <= blocks[b].code + blocks[b].size
    ensures home[i] == b
        || (blocks[b].isFunction && home[i] == b + 1 < |blocks| && labels[i].code == blocks[b + 1].code)
  {
    if home[i] < b {
      BlocksInOrder(blocks, false, entries, home[i], b);
    } else if home[i] > b {
      BlocksInOrder(blocks, false, entries, b, home[i]);
      if home[i] > b + 1 {
        BlocksInOrder(blocks, false, entries, b + 1, home[i]);
      }
    }
  }

  /** Two functions, of which only the second declares a label, at its start. */
  method TwoFunctions() returns (c: Compiler)
    ensures fresh(c) && c.Valid() && !c.open && |c.blocks| == 2 && c.home == [1]
    ensures c.blocks[0].isFunction && c.labels == [Label("x", c.blocks[1].code, 0)]
  {
    hide Marked, Contiguous, Housed, Unique, JumpsFirst, Return;
    c := new Compiler(false);
    var done := c.OpenBlock(true);
    done := c.CloseBlock(true);
    done := c.OpenBlock(true);
    assert LabelName("x:") == "x" by {
      assert "x:"[..1] == "x";
    }
    done := c.AddLabel("x:");
    done := c.CloseBlock(true);
  }

  /** A jump in the first one finds it. */
  method NextFunctionsLabel() returns (c: Compiler, a: nat, ok: bool)
    ensures c.home == [1] && ok && |c.blocks| == 2 && a == c.blocks[1].code + 1
  {
    hide Marked, Contiguous, Housed, Unique, JumpsFirst;
    c := TwoFunctions();
    assert Resolves(c.labels, c.home, c.blocks, 0, "x", 0);
    a, ok := c.ResolveLabel(0, "x");
  }
}
