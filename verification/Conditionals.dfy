/**
 The conditional part of the script preprocessor: a flat machine with one record
 per open block, and the nested meaning it implements.

 Executing a line and evaluating a condition are parameters; both may fail, and
 a condition may depend on what earlier lines did.
 */
module Conditionals {
  import opened Wrappers

  datatype Outcome<+A> = Done(value: A) | Error

  /** What lines and conditions mean; `W` is everything a script can change. */
  datatype Meaning<!W, !L, !C> = Meaning(exec: (W, L) -> Outcome<W>, test: (W, C) -> Outcome<bool>)

  datatype Line<+L, +C> = Plain(line: L) | If(cond: C) | ElseIf(cond: C) | Else | EndIf

  datatype Event<+L, +C> = Executed(line: L) | Tested(cond: C)

  /** One `ifblock` record. */
  datatype Block = Block(hasexeced: nat, elseused: nat, ignore: nat, inherited: bool)

  /** The preprocessor between two lines; once `failed`, parsing has stopped. */
  datatype Machine<+W, +L, +C> = Machine(blocks: seq<Block>, world: W, trace: seq<Event<L, C>>, failed: bool)

  function Top(blocks: seq<Block>): Block
    requires blocks != []
  {
    blocks[|blocks| - 1]
  }

  function Below(blocks: seq<Block>): seq<Block>
    requires blocks != []
  {
    blocks[..|blocks| - 1]
  }

  predicate Ignoring(blocks: seq<Block>) {
    blocks != [] && (Top(blocks).ignore > 0 || Top(blocks).inherited)
  }

  function WithTop(blocks: seq<Block>, b: Block): seq<Block>
    requires blocks != []
  {
    Below(blocks) + [b]
  }

  /** The end of `!if` and `!else if`: the condition decides about the current block. */
  function Decide<W, L, C>(m: Meaning<W, L, C>, st: Machine<W, L, C>, c: C): Machine<W, L, C>
    requires st.blocks != []
  {
    var t, seen := Top(st.blocks), st.trace + [Tested(c)];
    match m.test(st.world, c)
    case Error => st.(trace := seen, failed := true)
    case Done(true) => st.(trace := seen, blocks := WithTop(st.blocks, t.(hasexeced := t.hasexeced + 1, ignore := 0)))
    case Done(false) => st.(trace := seen, blocks := WithTop(st.blocks, t.(ignore := t.ignore + 1)))
  }

  /** `!else`, with a condition when it is an else-if. */
  function Alternative<W, L, C>(m: Meaning<W, L, C>, st: Machine<W, L, C>, cond: Option<C>): Machine<W, L, C> {
    if st.blocks != [] && Top(st.blocks).inherited then st
    else if st.blocks == [] || Top(st.blocks).elseused > 0 then st.(failed := true)
    else
      var t := Top(st.blocks);
      if t.hasexeced > 0 then st.(blocks := WithTop(st.blocks, t.(ignore := t.ignore + 1)))
      else
        match cond
        case None =>
          var flipped := if t.ignore > 0 then 0 else 1;
          st.(blocks := WithTop(st.blocks, Block(t.hasexeced + 1, t.elseused + 1, flipped, t.inherited)))
        case Some(c) => Decide(m, st, c)
  }

  /** `doParse` for one line. */
  function Step<W, L, C>(m: Meaning<W, L, C>, st: Machine<W, L, C>, line: Line<L, C>): Machine<W, L, C> {
    if st.failed then st else
    match line
    case Plain(l) =>
      if Ignoring(st.blocks) then st
      else (match m.exec(st.world, l)
            case Error => st.(trace := st.trace + [Executed(l)], failed := true)
            case Done(w) => st.(trace := st.trace + [Executed(l)], world := w))
    case If(c) =>
      var begun := st.(blocks := st.blocks + [Block(0, 0, 0, Ignoring(st.blocks))]);
      if Top(begun.blocks).inherited then begun else Decide(m, begun, c)
    case EndIf =>
      if st.blocks == [] then st.(failed := true) else st.(blocks := Below(st.blocks))
    case Else => Alternative(m, st, None)
    case ElseIf(c) => Alternative(m, st, Some(c))
  }

  function Run<W, L, C>(m: Meaning<W, L, C>, st: Machine<W, L, C>, lines: seq<Line<L, C>>): Machine<W, L, C> {
    if lines == [] then st else Step(m, Run(m, st, lines[..|lines| - 1]), lines[|lines| - 1])
  }

  /** The part of the preprocessor that works line by line. */
  class Preprocessor<W, L, C> {
    const meaning: Meaning<W, L, C>
    var blocks: seq<Block>
    var world: W
    var failed: bool
    ghost var trace: seq<Event<L, C>>

    ghost function State(): Machine<W, L, C>
      reads this
    {
      Machine(blocks, world, trace, failed)
    }

    constructor (meaning: Meaning<W, L, C>, world: W)
      ensures this.meaning == meaning && State() == Machine([], world, [], false)
    {
      this.meaning, this.blocks, this.world, this.failed, this.trace := meaning, [], world, false, [];
    }

    method StartIfBlock()
      modifies this`blocks
      ensures blocks == old(blocks) + [Block(0, 0, 0, Ignoring(old(blocks)))]
    {
      var ib := Block(0, 0, 0, false);
      if blocks != [] {
        ib := ib.(inherited := Top(blocks).ignore > 0 || Top(blocks).inherited);
      }
      blocks := blocks + [ib];
    }

    method EndIfBlock()
      requires blocks != []
      modifies this`blocks
      ensures blocks == Below(old(blocks))
    {
      blocks := blocks[..|blocks| - 1];
    }

    method TestCondition(c: C)
      requires blocks != [] && !failed
      modifies this
      ensures State() == Decide(meaning, old(State()), c)
    {
      var t := Top(blocks);
      trace := trace + [Tested(c)];
      match meaning.test(world, c) {
        case Error => failed := true;
        case Done(istrue) =>
          if istrue {
            blocks := WithTop(blocks, t.(hasexeced := t.hasexeced + 1, ignore := 0));
          } else {
            blocks := WithTop(blocks, t.(ignore := t.ignore + 1));
          }
      }
    }

    method TakeAlternative(cond: Option<C>)
      requires !failed
      modifies this
      ensures State() == Alternative(meaning, old(State()), cond)
    {
      if blocks != [] && Top(blocks).inherited {
        return;
      }
      if blocks == [] || Top(blocks).elseused > 0 {
        failed := true;
        return;
      }
      var t := Top(blocks);
      if t.hasexeced > 0 {
        blocks := WithTop(blocks, t.(ignore := t.ignore + 1));
        return;
      }
      match cond {
        case None =>
          var flipped := if t.ignore > 0 then 0 else 1;
          blocks := WithTop(blocks, Block(t.hasexeced + 1, t.elseused + 1, flipped, t.inherited));
        case Some(c) => TestCondition(c);
      }
    }

    method DoLine(line: Line<L, C>)
      requires !failed
      modifies this
      ensures State() == Step(meaning, old(State()), line)
    {
      match line {
        case Plain(l) =>
          if !Ignoring(blocks) {
            trace := trace + [Executed(l)];
            match meaning.exec(world, l) {
              case Error => failed := true;
              case Done(w) => world := w;
            }
          }
        case If(c) =>
          StartIfBlock();
          if !Top(blocks).inherited {
            TestCondition(c);
          }
        case EndIf =>
          if blocks == [] {
            failed := true;
          } else {
            EndIfBlock();
          }
        case Else => TakeAlternative(None);
        case ElseIf(c) => TakeAlternative(Some(c));
      }
    }

    /** Line after line until one fails. */
    method Parse(lines: seq<Line<L, C>>)
      requires !failed
      modifies this
      ensures State() == Run(meaning, old(State()), lines)
    {
      var i := 0;
      ghost var start := State();
      while i < |lines| && !failed
        invariant 0 <= i <= |lines| && State() == Run(meaning, start, lines[..i])
      {
        DoLine(lines[i]);
        i := i + 1;
        assert lines[..i][..i - 1] == lines[..i - 1];
      }
      StaysFailed(meaning, start, lines, i);
      assert lines[..|lines|] == lines;
    }
  }

  lemma {:induction false} StaysFailed<W, L, C>(m: Meaning<W, L, C>, st: Machine<W, L, C>, lines: seq<Line<L, C>>,
                                                i: nat)
    requires i <= |lines|
    ensures Run(m, st, lines[..i]).failed ==> Run(m, st, lines) == Run(m, st, lines[..i])
    decreases |lines| - i
  {
    if i < |lines| {
      assert lines[..i + 1][..i] == lines[..i];
      StaysFailed(m, st, lines, i + 1);
    } else {
      assert lines[..i] == lines;
    }
  }

  /* ---------- nested scripts ---------- */

  datatype Item<+L, +C> = Do(line: L) | Choice(cond: C, body: seq<Item<L, C>>, rest: Rest<L, C>)

  /** The branches after the first and the end of a block; nothing limits their number or order. */
  datatype Rest<+L, +C> =
    | Nothing
    | Otherwise(body: seq<Item<L, C>>, more: Rest<L, C>)
    | Elif(cond: C, body: seq<Item<L, C>>, rest: Rest<L, C>)

  /** How a well-nested script is written down. */
  function Flat<L, C>(items: seq<Item<L, C>>): seq<Line<L, C>>
    decreases items, 0
  {
    if items == [] then [] else FlatItem(items[0]) + Flat(items[1..])
  }

  function FlatItem<L, C>(item: Item<L, C>): seq<Line<L, C>>
    decreases item, 0
  {
    match item
    case Do(l) => [Plain(l)]
    case Choice(c, body, rest) => [If(c)] + Flat(body) + FlatRest(rest)
  }

  function FlatRest<L, C>(rest: Rest<L, C>): seq<Line<L, C>>
    decreases rest, 0
  {
    match rest
    case Nothing => [EndIf]
    case Otherwise(body, more) => [Else] + Flat(body) + FlatRest(more)
    case Elif(c, body, more) => [ElseIf(c)] + Flat(body) + FlatRest(more)
  }

  /** A run of the nested interpreter. */
  datatype Result<+W, +L, +C> = Result(world: W, trace: seq<Event<L, C>>, failed: bool)

  /** The nested interpreter: the body of the first branch whose condition holds is run, and no
      later condition is looked at. A branch after an unconditional one that was run is an error. */
  function Interp<W, L, C>(m: Meaning<W, L, C>, r: Result<W, L, C>, items: seq<Item<L, C>>): Result<W, L, C>
    decreases items, 0
  {
    if items == [] || r.failed then r else Interp(m, InterpItem(m, r, items[0]), items[1..])
  }

  function InterpItem<W, L, C>(m: Meaning<W, L, C>, r: Result<W, L, C>, item: Item<L, C>): Result<W, L, C>
    decreases item, 0
  {
    match item
    case Do(l) =>
      (match m.exec(r.world, l)
       case Error => r.(trace := r.trace + [Executed(l)], failed := true)
       case Done(w) => r.(trace := r.trace + [Executed(l)], world := w))
    case Choice(c, body, rest) =>
      var seen := r.(trace := r.trace + [Tested(c)]);
      match m.test(r.world, c)
      case Error => seen.(failed := true)
      case Done(true) => Interp(m, seen, body)
      case Done(false) => InterpRest(m, seen, rest)
  }

  function InterpRest<W, L, C>(m: Meaning<W, L, C>, r: Result<W, L, C>, rest: Rest<L, C>): Result<W, L, C>
    decreases rest, 0
  {
    match rest
    case Nothing => r
    case Otherwise(body, more) =>
      var after := Interp(m, r, body);
      if more.Nothing? then after else after.(failed := true)
    case Elif(c, body, more) =>
      var seen := r.(trace := r.trace + [Tested(c)]);
      match m.test(r.world, c)
      case Error => seen.(failed := true)
      case Done(true) => Interp(m, seen, body)
      case Done(false) => InterpRest(m, seen, more)
  }

  /* ---------- the flat machine implements the nested interpreter ---------- */

  lemma {:induction false} RunAppend<W, L, C>(m: Meaning<W, L, C>, st: Machine<W, L, C>,
                                              a: seq<Line<L, C>>, b: seq<Line<L, C>>)
    ensures Run(m, st, a + b) == Run(m, Run(m, st, a), b)
    decreases |b|
  {
    if b == [] {
      assert a + b == a;
    } else {
      assert (a + b)[..|a + b| - 1] == a + b[..|b| - 1];
      RunAppend(m, st, a, b[..|b| - 1]);
    }
  }

  lemma RunOne<W, L, C>(m: Meaning<W, L, C>, st: Machine<W, L, C>, line: Line<L, C>)
    ensures Run(m, st, [line]) == Step(m, st, line)
  {
    assert Run(m, st, [line][..0]) == st;
  }

  lemma RunFirst<W, L, C>(m: Meaning<W, L, C>, st: Machine<W, L, C>, line: Line<L, C>,
                          body: seq<Line<L, C>>, rest: seq<Line<L, C>>)
    ensures Run(m, st, [line] + body + rest) == Run(m, Run(m, Step(m, st, line), body), rest)
  {
    RunOne(m, st, line);
    RunAppend(m, st, [line] + body, rest);
    RunAppend(m, st, [line], body);
  }

  lemma FailedStays<W, L, C>(m: Meaning<W, L, C>, st: Machine<W, L, C>, lines: seq<Line<L, C>>)
    requires st.failed
    ensures Run(m, st, lines) == st
  {
    StaysFailed(m, st, lines, 0);
  }

  /** In an ignored region nothing is executed, nothing is evaluated and the blocks come back. */
  lemma {:induction false} SkipItems<W, L, C>(m: Meaning<W, L, C>, st: Machine<W, L, C>, items: seq<Item<L, C>>)
    requires !st.failed && Ignoring(st.blocks)
    ensures Run(m, st, Flat(items)) == st
    decreases items, 0
  {
    if items != [] {
      SkipItem(m, st, items[0]);
      RunAppend(m, st, FlatItem(items[0]), Flat(items[1..]));
      SkipItems(m, st, items[1..]);
    }
  }

  lemma {:induction false} SkipItem<W, L, C>(m: Meaning<W, L, C>, st: Machine<W, L, C>, item: Item<L, C>)
    requires !st.failed && Ignoring(st.blocks)
    ensures Run(m, st, FlatItem(item)) == st
    decreases item, 0
  {
    hide Run, Interp, Flat, FlatRest, InterpRest;
    match item {
      case Do(l) => RunOne(m, st, Plain(l));
      case Choice(c, body, rest) =>
        var pushed := Step(m, st, If(c));
        RunFirst(m, st, If(c), Flat(body), FlatRest(rest));
        SkipItems(m, pushed, body);
        SkipRest(m, pushed, rest);
    }
  }

  lemma {:induction false} SkipRest<W, L, C>(m: Meaning<W, L, C>, st: Machine<W, L, C>, rest: Rest<L, C>)
    requires !st.failed && st.blocks != [] && Top(st.blocks).inherited
    ensures Run(m, st, FlatRest(rest)) == st.(blocks := Below(st.blocks))
    decreases rest, 0
  {
    match rest {
      case Nothing => RunOne(m, st, EndIf);
      case Otherwise(body, more) =>
        RunFirst(m, st, Else, Flat(body), FlatRest(more));
        SkipItems(m, st, body);
        SkipRest(m, st, more);
      case Elif(c, body, more) =>
        RunFirst(m, st, ElseIf(c), Flat(body), FlatRest(more));
        SkipItems(m, st, body);
        SkipRest(m, st, more);
    }
  }

  /** Once a branch of a block was taken, the later branches are passed over. */
  lemma {:induction false} TakenRest<W, L, C>(m: Meaning<W, L, C>, st: Machine<W, L, C>, rest: Rest<L, C>)
    requires !st.failed && st.blocks != []
    requires Top(st.blocks).hasexeced > 0 && Top(st.blocks).elseused == 0 && !Top(st.blocks).inherited
    ensures Run(m, st, FlatRest(rest)) == st.(blocks := Below(st.blocks))
    decreases rest, 0
  {
    match rest {
      case Nothing => RunOne(m, st, EndIf);
      case Otherwise(body, more) =>
        var next := Step(m, st, Else);
        RunFirst(m, st, Else, Flat(body), FlatRest(more));
        SkipItems(m, next, body);
        TakenRest(m, next, more);
      case Elif(c, body, more) =>
        var next := Step(m, st, ElseIf(c));
        RunFirst(m, st, ElseIf(c), Flat(body), FlatRest(more));
        SkipItems(m, next, body);
        TakenRest(m, next, more);
    }
  }

  ghost function View<W, L, C>(st: Machine<W, L, C>): Result<W, L, C> {
    Result(st.world, st.trace, st.failed)
  }

  /** `end` is where the nested interpreter ends with `r`, with the blocks `blocks` open. */
  ghost predicate Reaches<W, L, C>(end: Machine<W, L, C>, r: Result<W, L, C>, blocks: seq<Block>) {
    View(end) == r && (!r.failed ==> end.blocks == blocks)
  }

  /** The body of the branch that was taken, and the branches after it. */
  lemma {:induction false} TakenBranch<W, L, C>(m: Meaning<W, L, C>, st: Machine<W, L, C>,
                                                body: seq<Item<L, C>>, rest: Rest<L, C>)
    requires !st.failed && st.blocks != []
    requires var t := Top(st.blocks); t.hasexeced > 0 && t.elseused == 0 && !t.inherited && t.ignore == 0
    ensures Reaches(Run(m, Run(m, st, Flat(body)), FlatRest(rest)), Interp(m, View(st), body), Below(st.blocks))
    decreases body, 1
  {
    ItemsRefine(m, st, body);
    var mid := Run(m, st, Flat(body));
    if mid.failed {
      FailedStays(m, mid, FlatRest(rest));
    } else {
      TakenRest(m, mid, rest);
    }
  }

  lemma {:induction false} OpenRest<W, L, C>(m: Meaning<W, L, C>, st: Machine<W, L, C>, rest: Rest<L, C>)
    requires !st.failed && st.blocks != []
    requires var t := Top(st.blocks); t.hasexeced == 0 && t.elseused == 0 && !t.inherited && t.ignore > 0
    ensures Reaches(Run(m, st, FlatRest(rest)), InterpRest(m, View(st), rest), Below(st.blocks))
    decreases rest, 0
  {
    match rest {
      case Nothing => RunOne(m, st, EndIf);
      case Otherwise(body, more) =>
        var next := Step(m, st, Else);
        RunFirst(m, st, Else, Flat(body), FlatRest(more));
        ItemsRefine(m, next, body);
        AfterElse(m, Run(m, next, Flat(body)), more);
      case Elif(c, body, more) =>
        RunFirst(m, st, ElseIf(c), Flat(body), FlatRest(more));
        var next := Step(m, st, ElseIf(c));
        match m.test(st.world, c) {
          case Error =>
            FailedStays(m, next, Flat(body));
            FailedStays(m, next, FlatRest(more));
          case Done(true) => TakenBranch(m, next, body, more);
          case Done(false) =>
            SkipItems(m, next, body);
            OpenRest(m, next, more);
        }
    }
  }

  /** After an unconditional branch was run, the block must end. */
  lemma AfterElse<W, L, C>(m: Meaning<W, L, C>, st: Machine<W, L, C>, more: Rest<L, C>)
    requires st.failed || (st.blocks != [] && Top(st.blocks).elseused > 0 && !Top(st.blocks).inherited)
    ensures var end := Run(m, st, FlatRest(more));
            if st.failed then end == st
            else if more.Nothing? then end == st.(blocks := Below(st.blocks))
            else end == st.(failed := true)
  {
    if st.failed {
      FailedStays(m, st, FlatRest(more));
    } else {
      match more {
        case Nothing => RunOne(m, st, EndIf);
        case Otherwise(body, more') =>
          RunFirst(m, st, Else, Flat(body), FlatRest(more'));
          FailedStays(m, Step(m, st, Else), Flat(body));
          FailedStays(m, Step(m, st, Else), FlatRest(more'));
        case Elif(c, body, more') =>
          RunFirst(m, st, ElseIf(c), Flat(body), FlatRest(more'));
          FailedStays(m, Step(m, st, ElseIf(c)), Flat(body));
          FailedStays(m, Step(m, st, ElseIf(c)), FlatRest(more'));
      }
    }
  }

  lemma {:induction false} ItemRefines<W, L, C>(m: Meaning<W, L, C>, st: Machine<W, L, C>, item: Item<L, C>)
    requires !st.failed && !Ignoring(st.blocks)
    ensures Reaches(Run(m, st, FlatItem(item)), InterpItem(m, View(st), item), st.blocks)
    decreases item, 0
  {
    hide Run, Interp, Flat, FlatRest, InterpRest;
    match item {
      case Do(l) => RunOne(m, st, Plain(l));
      case Choice(c, body, rest) =>
        RunFirst(m, st, If(c), Flat(body), FlatRest(rest));
        var next := Step(m, st, If(c));
        match m.test(st.world, c) {
          case Error =>
            FailedStays(m, next, Flat(body));
            FailedStays(m, next, FlatRest(rest));
          case Done(true) => TakenBranch(m, next, body, rest);
          case Done(false) =>
            SkipItems(m, next, body);
            OpenRest(m, next, rest);
        }
    }
  }

  /** The flat machine executes the lines and evaluates the conditions that the nested interpreter does,
      in the same order and with the same outcome, and leaves the open blocks as it found them. */
  lemma {:induction false} ItemsRefine<W, L, C>(m: Meaning<W, L, C>, st: Machine<W, L, C>, items: seq<Item<L, C>>)
    requires !st.failed && !Ignoring(st.blocks)
    ensures Reaches(Run(m, st, Flat(items)), Interp(m, View(st), items), st.blocks)
    decreases items, 0
  {
    if items != [] {
      ItemRefines(m, st, items[0]);
      RunAppend(m, st, FlatItem(items[0]), Flat(items[1..]));
      var mid := Run(m, st, FlatItem(items[0]));
      if mid.failed {
        FailedStays(m, mid, Flat(items[1..]));
      } else {
        ItemsRefine(m, mid, items[1..]);
      }
    }
  }

  /** A well-nested script, parsed from the start: the world and the record of what was executed and
      evaluated are the nested interpreter's, and a parse that succeeds ends with no block open. */
  method ParseScript<W, L, C>(m: Meaning<W, L, C>, world: W, script: seq<Item<L, C>>)
    returns (after: W, ok: bool, ghost trace: seq<Event<L, C>>, open: nat)
    ensures Result(after, trace, !ok) == Interp(m, Result(world, [], false), script)
    ensures ok ==> open == 0
  {
    var parser := new Preprocessor(m, world);
    parser.Parse(Flat(script));
    ItemsRefine(m, Machine([], world, [], false), script);
    after, ok, trace, open := parser.world, !parser.failed, parser.trace, |parser.blocks|;
  }

  /* ---------- any lines at all ---------- */

  /** Blocks begun and not ended in some lines. */
  function Level<L, C>(lines: seq<Line<L, C>>): int {
    if lines == [] then 0
    else Level(lines[..|lines| - 1]) + match lines[|lines| - 1] case If(_) => 1 case EndIf => -1 case _ => 0
  }

  predicate InBlock<L, C>(line: Line<L, C>) {
    line.Else? || line.ElseIf? || line.EndIf?
  }

  /** All blocks are ended, and branches and ends are inside of blocks. */
  ghost predicate Balanced<L, C>(lines: seq<Line<L, C>>) {
    Level(lines) == 0 && Inside(lines)
  }

  ghost predicate Inside<L, C>(lines: seq<Line<L, C>>) {
    forall k :: 0 <= k < |lines| && InBlock(lines[k]) ==> Level(lines[..k]) > 0
  }

  lemma LevelNext<L, C>(lines: seq<Line<L, C>>, i: nat)
    requires i < |lines|
    ensures Level(lines[..i + 1]) ==
              Level(lines[..i]) + match lines[i] case If(_) => 1 case EndIf => -1 case _ => 0
  {
    assert lines[..i + 1][..i] == lines[..i];
  }

  lemma StepOpens<W, L, C>(m: Meaning<W, L, C>, st: Machine<W, L, C>, line: Line<L, C>)
    requires !Step(m, st, line).failed
    ensures !st.failed && (InBlock(line) ==> st.blocks != [])
    ensures |Step(m, st, line).blocks| == |st.blocks| + match line case If(_) => 1 case EndIf => -1 case _ => 0
  {
    hide Decide, Alternative;
    match line {
      case Plain(_) =>
      case EndIf =>
      case If(c) =>
        var begun := st.(blocks := st.blocks + [Block(0, 0, 0, Ignoring(st.blocks))]);
        if !Top(begun.blocks).inherited {
          DecideOpens(m, begun, c);
        }
      case Else => AlternativeOpens(m, st, None);
      case ElseIf(c) => AlternativeOpens(m, st, Some(c));
    }
  }

  lemma DecideOpens<W, L, C>(m: Meaning<W, L, C>, st: Machine<W, L, C>, c: C)
    requires st.blocks != []
    ensures |Decide(m, st, c).blocks| == |st.blocks|
  {
  }

  lemma AlternativeOpens<W, L, C>(m: Meaning<W, L, C>, st: Machine<W, L, C>, cond: Option<C>)
    requires !Alternative(m, st, cond).failed
    ensures st.blocks != [] && |Alternative(m, st, cond).blocks| == |st.blocks|
  {
    hide Decide;
    if st.blocks != [] && cond.Some? {
      DecideOpens(m, st, cond.value);
    }
  }

  lemma RunLast<W, L, C>(m: Meaning<W, L, C>, st: Machine<W, L, C>, lines: seq<Line<L, C>>)
    requires lines != []
    ensures Run(m, st, lines) == Step(m, Run(m, st, lines[..|lines| - 1]), lines[|lines| - 1])
  {
  }

  lemma RunNothing<W, L, C>(m: Meaning<W, L, C>, st: Machine<W, L, C>)
    ensures Run(m, st, []) == st
  {
  }

  /** Without an error, the open blocks are those begun and not ended, and every branch was in a block. */
  lemma {:induction false} OpenBlocks<W, L, C>(m: Meaning<W, L, C>, world: W, lines: seq<Line<L, C>>)
    requires !Run(m, Machine([], world, [], false), lines).failed
    ensures |Run(m, Machine([], world, [], false), lines).blocks| == Level(lines) && Inside(lines)
  {
    hide Inside, Step, Run;
    RunNothing(m, Machine([], world, [], false));
    if lines == [] {
      NothingInside<L, C>();
    } else {
      var front, last := lines[..|lines| - 1], lines[|lines| - 1];
      var st := Run(m, Machine([], world, [], false), front);
      RunLast(m, Machine([], world, [], false), lines);
      StepOpens(m, st, last);
      OpenBlocks(m, world, front);
      InsideNext(lines);
    }
  }

  lemma NothingInside<L, C>()
    ensures Inside<L, C>([])
  {
  }

  lemma InsideNext<L, C>(lines: seq<Line<L, C>>)
    requires lines != [] && Inside(lines[..|lines| - 1])
    requires InBlock(lines[|lines| - 1]) ==> Level(lines[..|lines| - 1]) > 0
    ensures Inside(lines)
  {
    var front := lines[..|lines| - 1];
    forall k | 0 <= k < |lines| && InBlock(lines[k])
      ensures Level(lines[..k]) > 0
    {
      assert lines[..k] == front[..k];
    }
  }

  lemma TwoParts<A>(lines: seq<A>, i: nat, j: nat, k: nat)
    requires i <= j <= k <= |lines|
    ensures lines[i..k] == lines[i..j] + lines[j..k]
  {
  }

  lemma ThreeParts<A>(lines: seq<A>, i: nat, j: nat, k: nat)
    requires i < j <= k <= |lines|
    ensures lines[i..k] == [lines[i]] + lines[i + 1..j] + lines[j..k]
  {
  }

  /** Balanced lines are a nested script: the items from line `i` on, as far as the block around them goes. */
  lemma {:induction false} NestItems<L, C>(lines: seq<Line<L, C>>, i: nat)
    returns (items: seq<Item<L, C>>, j: nat)
    requires Balanced(lines) && i <= |lines| && Level(lines[..i]) >= 0
    ensures i <= j <= |lines| && lines[i..j] == Flat(items) && Level(lines[..j]) == Level(lines[..i])
    ensures j == |lines| || InBlock(lines[j])
    decreases |lines| - i
  {
    hide Inside, Level;
    if i == |lines| || InBlock(lines[i]) {
      items, j := [], i;
    } else {
      LevelNext(lines, i);
      var item, next;
      if lines[i].Plain? {
        item, next := Do(lines[i].line), i + 1;
      } else {
        var body, inner := NestItems(lines, i + 1);
        EndsLater(lines, inner);
        var rest, end := NestRest(lines, inner);
        item, next := Choice(lines[i].cond, body, rest), end;
        ThreeParts(lines, i, inner, end);
      }
      var more;
      more, j := NestItems(lines, next);
      items := [item] + more;
      TwoParts(lines, i, next, j);
    }
  }

  /** The branches from line `i` on, and the end of the block. */
  lemma {:induction false} NestRest<L, C>(lines: seq<Line<L, C>>, i: nat) returns (rest: Rest<L, C>, j: nat)
    requires Balanced(lines) && i < |lines| && InBlock(lines[i])
    requires Level(lines[..i]) > 0
    ensures i < j <= |lines| && lines[i..j] == FlatRest(rest) && Level(lines[..j]) == Level(lines[..i]) - 1
    decreases |lines| - i
  {
    hide Inside, Level;
    LevelNext(lines, i);
    if lines[i].EndIf? {
      rest, j := Nothing, i + 1;
    } else {
      var body, inner := NestItems(lines, i + 1);
      EndsLater(lines, inner);
      var more;
      more, j := NestRest(lines, inner);
      rest := if lines[i].Else? then Otherwise(body, more) else Elif(lines[i].cond, body, more);
      ThreeParts(lines, i, inner, j);
    }
  }

  /** Inside a block the lines go on. */
  lemma EndsLater<L, C>(lines: seq<Line<L, C>>, i: nat)
    requires Balanced(lines) && i <= |lines| && Level(lines[..i]) > 0
    ensures i < |lines|
  {
    assert lines[..|lines|] == lines;
  }

  lemma BalancedIsNested<L, C>(lines: seq<Line<L, C>>) returns (items: seq<Item<L, C>>)
    requires Balanced(lines)
    ensures lines == Flat(items)
  {
    var j;
    items, j := NestItems(lines, 0);
    assert lines[..0] == [];
    assert j == |lines|;
    assert lines[0..j] == lines;
  }

  /** Any lines, with the check at the end of the file that no block is open. They are accepted exactly if they are a
      nested script on which the nested interpreter succeeds; what is executed and evaluated is then what it does. */
  method ParseLines<W, L, C>(m: Meaning<W, L, C>, world: W, lines: seq<Line<L, C>>)
    returns (ok: bool, after: W, ghost trace: seq<Event<L, C>>)
    ensures ok <==> exists items :: lines == Flat(items) && !Interp(m, Result(world, [], false), items).failed
    ensures forall items :: lines == Flat(items) ==>
              Interp(m, Result(world, [], false), items) == Result(after, trace, !ok)
  {
    var parser := new Preprocessor(m, world);
    parser.Parse(lines);
    ok, after, trace := !parser.failed && parser.blocks == [], parser.world, parser.trace;
    hide Run, Interp, Flat, Inside;
    ghost var start: Machine<W, L, C> := Machine([], world, [], false);
    forall items | lines == Flat(items)
      ensures Interp(m, Result(world, [], false), items) == Result(after, trace, !ok)
    {
      ItemsRefine(m, start, items);
    }
    if ok {
      OpenBlocks(m, world, lines);
      var items := BalancedIsNested(lines);
    }
  }
}
