/**
 The two threads of the LZMA wrapper as a step machine.

 The caller and the worker pass a turn through two auto-reset events.  Each
 program counter names the next instruction that signals, waits or touches the
 shared fields; the copies and assignments made while one side holds the turn
 are grouped into one step, which `TurnIsExclusive` justifies.
 */
module LzmaProtocol {
  import opened Bytes
  import opened LzmaSession

  /** Where `End` goes when it is done: back to its caller, or on into `Init`. */
  datatype After = Return | ThenInit(script: seq<Request>)

  datatype CallerPc =
    | Idle
    | CmpEnter(flush: bool) | CmpSetFinish(flush: bool) | CmpLaunch | CmpWait | CmpReturn
    | EndEnter(after: After) | EndKill(after: After) | EndSignal(after: After)
    | EndJoin(after: After) | EndClose(after: After)
    | InitFlags(script: seq<Request>) | InitEvents

  datatype WorkerPc = Absent | Loop | Ask | Await | Woken | ExitFlag | ExitSignal | Gone

  /** `start`, `startThreaded` and `startFlush` remember the last `Compress` call. */
  datatype System = System(
    x: Session, needIO: bool, ioReady: bool, thread: bool,
    caller: CallerPc, worker: WorkerPc, ret: Status,
    start: Session, startThreaded: bool, startFlush: bool)

  datatype Op = SetNextIn(bytes: seq<Byte>) | SetNextOut(size: nat) | Compress(flush: bool)
              | End | Init(script: seq<Request>) | Go

  datatype Action = Caller(op: Op) | Worker

  predicate WorkerEnabled(a: System) {
    match a.worker
    case Absent => false
    case Gone => false
    case Await => a.ioReady
    case _ => true
  }

  predicate CallerEnabled(a: System) {
    match a.caller
    case CmpWait => a.needIO || a.worker == Gone
    case EndJoin(_) => a.worker == Gone
    case _ => true
  }

  predicate Enabled(a: System, act: Action) {
    if act.Worker? then WorkerEnabled(a)
    else if a.caller == Idle then act.op != Go
    else act.op == Go && CallerEnabled(a)
  }

  function Do(a: System, act: Action): System
    requires Enabled(a, act)
  {
    if act.Worker? then WorkerStep(a) else if a.caller == Idle then Begin(a, act.op) else CallerStep(a)
  }

  /** What an idle caller may do. */
  function Begin(a: System, op: Op): System
    requires op != Go
  {
    match op
    case SetNextIn(bytes) => a.(x := a.x.(input := bytes))
    case SetNextOut(size) => a.(x := a.x.(room := size))
    case Compress(flush) =>
      a.(caller := CmpEnter(flush), start := a.x, startThreaded := a.thread, startFlush := flush)
    case End => a.(caller := EndEnter(Return))
    case Init(script) => a.(caller := EndEnter(ThenInit(script)))
  }

  /** The caller inside `Compress`, `End` or `Init`. */
  function CallerStep(a: System): System
    requires a.caller != Idle && CallerEnabled(a)
  {
    match a.caller
    case CmpEnter(flush) =>
      if a.x.finished then a.(caller := Idle, ret := if flush then Ok else BadCall)
      else a.(caller := CmpSetFinish(flush))
    case CmpSetFinish(flush) => a.(caller := CmpLaunch, x := a.x.(finish := flush))
    case CmpLaunch =>
      if a.thread then a.(caller := CmpWait, ioReady := true)
      else a.(caller := CmpWait, thread := true, worker := Loop)
    case CmpWait =>
      if a.needIO then a.(caller := CmpReturn, needIO := false)
      else a.(caller := Idle, x := a.x.(finished := true), ioReady := true, ret := ThreadError)
    case CmpReturn => a.(caller := Idle, ret := if a.x.finished then a.x.status else Ok)
    case EndEnter(k) => a.(caller := if a.thread && !a.x.finished then EndKill(k) else EndClose(k))
    case EndKill(k) => a.(caller := EndSignal(k), x := a.x.(input := [], room := 0, finished := true))
    case EndSignal(k) => a.(caller := EndJoin(k), ioReady := true)
    case EndJoin(k) => a.(caller := EndClose(k))
    case EndClose(k) =>
      a.(caller := if k.Return? then Idle else InitFlags(k.script),
         thread := false, worker := Absent, x := a.x.(input := [], room := 0))
    case InitFlags(script) =>
      a.(caller := InitEvents, x := Session(script, [], a.x.input, a.x.room, [], false, false, Ok))
    case InitEvents => a.(caller := Idle, needIO := false, ioReady := false)
  }

  /** The worker: the copy loops, `GetMoreIO` and the end of `CompressReal`. */
  function WorkerStep(a: System): System
    requires WorkerEnabled(a)
  {
    match a.worker
    case Loop =>
      if Ending(a.x) then a.(worker := ExitFlag, x := Conclude(a.x))
      else if Stalled(a.x) then a.(worker := Ask)
      else a.(x := Micro(a.x))
    case Ask => a.(worker := Await, needIO := true)
    case Await => a.(worker := Woken, ioReady := false)
    case Woken =>
      if Stalled(a.x) || (a.x.todo != [] && a.x.todo[0].Read? && a.x.input != [] && a.x.finished)
      then a.(worker := ExitFlag, x := Abort(a.x))
      else a.(worker := Loop)
    case ExitFlag => a.(worker := ExitSignal, x := a.x.(finished := true))
    case ExitSignal => a.(worker := Gone, needIO := true)
  }

  /** A freshly constructed wrapper. */
  function Fresh(start: Session): System {
    System(Session([], [], [], 0, [], false, true, Ok), false, false, false, Idle, Absent, Ok, start, false, false)
  }

  /** `acts` is a possible interleaving that leads from `a` to `b`. */
  ghost predicate Run(a: System, acts: seq<Action>, b: System)
    decreases |acts|
  {
    if acts == [] then a == b
    else Enabled(a, acts[0]) && Run(Do(a, acts[0]), acts[1..], b)
  }

  ghost predicate Reachable(a: System) {
    exists start, acts :: Run(Fresh(start), acts, a)
  }

  /** The next instruction of this side reads or writes the shared fields. */
  predicate CallerTouches(a: System) {
    !(a.caller.CmpLaunch? || a.caller.CmpWait? || a.caller.EndSignal? || a.caller.EndJoin? || a.caller.InitEvents?)
  }

  predicate WorkerTouches(a: System) {
    a.worker in {Loop, Woken, ExitFlag}
  }

  /* ---------- the invariant ---------- */

  /** The request a worker inside `GetMoreIO` is working on. */
  predicate Waiting(x: Session) {
    x.todo != [] && match x.todo[0]
      case Read(n) => n > 0
      case Write(bytes) => bytes != []
      case Fail => false
  }

  /** Nothing has been resupplied that would let the waiting worker take the end of the input. */
  predicate NoEndYet(x: Session) {
    Waiting(x) && (x.todo[0].Read? ==> !x.finish)
  }

  /** The session the `Compress` call in progress must end in. */
  function Target(a: System): Session {
    var y := a.start.(finish := a.startFlush);
    if a.startThreaded then Resume(y) else Pump(y)
  }

  /** The caller is inside `Compress` or `End` and has handed the turn over, or waits for it. */
  ghost predicate DuringWait(a: System) {
    && a.thread
    && !a.start.finished
    && match a.worker
       case Loop => !a.needIO && !a.ioReady && !a.x.finished && Pump(a.x) == Target(a)
       case Ask => !a.needIO && !a.ioReady && !a.x.finished && Stalled(a.x) && a.x == Target(a)
       case Await =>
         && !a.x.finished
         && (if a.needIO then !a.ioReady && NoEndYet(a.x) && a.x == Target(a)
             else a.ioReady && Waiting(a.x) && a.x == a.start.(finish := a.startFlush) && a.startThreaded)
       case Woken =>
         && !a.needIO && !a.ioReady && !a.x.finished && Waiting(a.x)
         && a.x == a.start.(finish := a.startFlush) && a.startThreaded
       case ExitFlag => !a.needIO && !a.ioReady && !a.x.finished && a.x.(finished := true) == Target(a)
       case ExitSignal => !a.needIO && !a.ioReady && a.x.finished && a.x == Target(a)
       case Gone => a.needIO && !a.ioReady && a.x.finished && a.x == Target(a)
       case Absent => false
  }

  /** The caller holds the turn: the worker does not exist, has left, or waits to be resumed. */
  ghost predicate CallerHolds(a: System) {
    && !a.ioReady
    && (a.thread <==> a.worker != Absent)
    && (a.needIO ==> a.worker in {Absent, Gone} && (a.x.finished || a.caller.InitEvents?))
    && match a.worker
       case Absent => true
       case Await => NoEndYet(a.x) && !a.x.finished
       case Gone => a.x.finished
       case _ => false
  }

  /** `End` has told the worker to give up and waits for the thread to leave. */
  predicate DuringJoin(a: System) {
    && a.thread && a.x.finished
    && match a.worker
       case Await => !a.needIO && a.ioReady && Stalled(a.x)
       case Woken => !a.needIO && !a.ioReady && Stalled(a.x)
       case ExitFlag => !a.needIO && !a.ioReady
       case ExitSignal => !a.needIO && !a.ioReady
       case Gone => !a.ioReady
       case _ => false
  }

  ghost predicate Inv(a: System) {
    match a.caller
    case Idle => CallerHolds(a)
    case CmpEnter(flush) =>
      CallerHolds(a) && a.start == a.x && a.startThreaded == a.thread && a.startFlush == flush
    case CmpSetFinish(flush) =>
      && CallerHolds(a) && !a.x.finished
      && a.start == a.x && a.startThreaded == a.thread && a.startFlush == flush
    case CmpLaunch =>
      && !a.ioReady && !a.needIO && !a.x.finished && !a.start.finished
      && (a.thread <==> a.worker != Absent) && a.worker in {Absent, Await}
      && (a.worker == Await ==> Waiting(a.x))
      && a.x == a.start.(finish := a.startFlush) && a.startThreaded == a.thread
    case CmpWait => DuringWait(a)
    case CmpReturn => CallerHolds(a) && !a.start.finished && a.x == Target(a)
    case EndEnter(_) => CallerHolds(a)
    case EndKill(_) => CallerHolds(a) && a.worker == Await
    case EndSignal(_) =>
      a.thread && !a.needIO && !a.ioReady && a.worker == Await && a.x.finished && Stalled(a.x)
    case EndJoin(_) => DuringJoin(a)
    case EndClose(_) => CallerHolds(a) && a.worker in {Absent, Gone}
    case InitFlags(_) => CallerHolds(a) && a.worker == Absent
    case InitEvents => CallerHolds(a) && a.worker == Absent
  }

  lemma StepKeepsInv(a: System, act: Action)
    requires Inv(a) && Enabled(a, act)
    ensures Inv(Do(a, act))
  {
    if act.Worker? {
      WorkerKeepsInv(a);
    } else if a.caller == Idle {
      BeginKeepsInv(a, act.op);
    } else {
      CallerKeepsInv(a);
    }
  }

  lemma BeginKeepsInv(a: System, op: Op)
    requires Inv(a) && a.caller == Idle && op != Go
    ensures Inv(Begin(a, op))
  {
  }

  lemma CallerKeepsInv(a: System)
    requires Inv(a) && a.caller != Idle && CallerEnabled(a)
    ensures Inv(CallerStep(a))
  {
  }

  lemma WaitKeepsInv(a: System)
    requires a.caller == CmpWait && DuringWait(a) && WorkerEnabled(a)
    ensures DuringWait(WorkerStep(a)) && WorkerStep(a).caller == CmpWait
  {
  }

  lemma JoinKeepsInv(a: System)
    requires a.caller.EndJoin? && DuringJoin(a) && WorkerEnabled(a)
    ensures DuringJoin(WorkerStep(a)) && WorkerStep(a).caller == a.caller
  {
  }

  lemma WorkerKeepsInv(a: System)
    requires Inv(a) && WorkerEnabled(a)
    ensures Inv(WorkerStep(a))
  {
    hide DuringWait, DuringJoin, Micro, Conclude, Abort, Stalled;
    if a.caller == CmpWait {
      WaitKeepsInv(a);
    } else if a.caller.EndJoin? {
      JoinKeepsInv(a);
    }
  }

  lemma {:induction false} RunKeepsInv(a: System, acts: seq<Action>, b: System)
    requires Inv(a) && Run(a, acts, b)
    ensures Inv(b)
    decreases |acts|
  {
    if acts != [] {
      StepKeepsInv(a, acts[0]);
      RunKeepsInv(Do(a, acts[0]), acts[1..], b);
    }
  }

  lemma ReachableInv(a: System)
    requires Reachable(a)
    ensures Inv(a)
  {
    var start, acts :| Run(Fresh(start), acts, a);
    RunKeepsInv(Fresh(start), acts, a);
  }

  /* ---------- safety over every interleaving ---------- */

  /** The two sides never touch the shared fields at the same time. */
  lemma TurnIsExclusive(a: System)
    requires Reachable(a)
    ensures !(CallerTouches(a) && WorkerTouches(a))
  {
    ReachableInv(a);
  }

  /** Some side can always move; in particular both never wait with both events clear.  The wait
      in `Compress` is never ended by the thread handle, so no thread error is reported. */
  lemma NeverStuck(a: System)
    requires Reachable(a)
    ensures CallerEnabled(a) || WorkerEnabled(a)
    ensures !(a.caller == CmpWait && a.worker == Await && !a.needIO && !a.ioReady)
    ensures a.caller == CmpWait && CallerEnabled(a) ==> a.needIO
  {
    ReachableInv(a);
  }

  /** A bound on the worker steps that can still happen while the caller waits. */
  function WaitRank(a: System): nat {
    match a.worker
    case Await => if a.ioReady then 8 * Work(a.x.todo) + 7 else 0
    case Woken => 8 * Work(a.x.todo) + 6
    case Loop => 8 * Work(a.x.todo) + 5
    case Ask => 1
    case ExitFlag => 2
    case ExitSignal => 1
    case _ => 0
  }

  predicate CallerWaits(a: System) {
    a.caller.CmpWait? || a.caller.EndJoin?
  }

  lemma WaitStep(a: System, act: Action)
    requires Inv(a) && CallerWaits(a) && Enabled(a, act)
    ensures var b := Do(a, act);
      if act.Worker? then b.caller == a.caller && WaitRank(b) < WaitRank(a)
      else !CallerWaits(b)
  {
    if act.Worker? && a.worker == Loop && !Ending(a.x) && !Stalled(a.x) {
      MicroWorks(a.x);
    }
  }

  /** Every wait ends: a run that starts with the caller waiting in `Compress` or in the join of
      `End` gets it past that wait within a bounded number of steps, whoever is scheduled. */
  lemma {:induction false} WaitEnds(a: System, acts: seq<Action>, b: System) returns (k: nat, c: System)
    requires Inv(a) && CallerWaits(a) && Run(a, acts, b) && |acts| > WaitRank(a)
    ensures 0 < k <= |acts| && k <= WaitRank(a) + 1
    ensures Run(a, acts[..k], c)
    ensures a.caller == CmpWait ==> c.caller == CmpReturn
    ensures a.caller.EndJoin? ==> c.caller.EndClose? && c.worker == Gone
    decreases |acts|
  {
    var mid := Do(a, acts[0]);
    WaitStep(a, acts[0]);
    StepKeepsInv(a, acts[0]);
    if acts[0].Worker? {
      k, c := WaitEnds(mid, acts[1..], b);
      k := k + 1;
      assert acts[..k][1..] == acts[1..][..k - 1];
    } else {
      k, c := 1, mid;
      assert acts[..1][1..] == [];
    }
  }

  /* ---------- the concurrent call is the sequential call ---------- */

  /** The caller stays inside its call until `acts` is used up. */
  ghost predicate Inside(a: System, acts: seq<Action>)
    decreases |acts|
  {
    acts != [] ==>
      a.caller != Idle && (Enabled(a, acts[0]) ==> Inside(Do(a, acts[0]), acts[1..]))
  }

  predicate InCompress(a: System) {
    a.caller.CmpEnter? || a.caller.CmpSetFinish? || a.caller.CmpLaunch? || a.caller.CmpWait? || a.caller.CmpReturn?
  }

  lemma CompressStep(a: System, act: Action)
    requires Inv(a) && InCompress(a) && Enabled(a, act)
    ensures var b := Do(a, act);
      && b.start == a.start && b.startThreaded == a.startThreaded && b.startFlush == a.startFlush
      && (b.caller != Idle ==> InCompress(b))
      && (b.caller == Idle ==> (b.x, b.ret) == CompressCall(a.start, a.startThreaded, a.startFlush))
  {
  }

  lemma {:induction false} CompressTail(a: System, acts: seq<Action>, b: System)
    requires Inv(a) && InCompress(a) && Run(a, acts, b) && Inside(a, acts) && b.caller == Idle
    ensures (b.x, b.ret) == CompressCall(a.start, a.startThreaded, a.startFlush)
    decreases |acts|
  {
    var c := Do(a, acts[0]);
    CompressStep(a, acts[0]);
    StepKeepsInv(a, acts[0]);
    if c.caller != Idle {
      CompressTail(c, acts[1..], b);
    }
  }

  /** In every interleaving, a `Compress` call that returns has done exactly what the sequential
      `CompressCall` does, and returns its code. */
  lemma CompressRefines(a: System, flush: bool, acts: seq<Action>, b: System)
    requires Reachable(a) && a.caller == Idle
    requires Run(Do(a, Caller(Compress(flush))), acts, b)
    requires Inside(Do(a, Caller(Compress(flush))), acts) && b.caller == Idle
    ensures (b.x, b.ret) == CompressCall(a.x, a.thread, flush)
  {
    ReachableInv(a);
    StepKeepsInv(a, Caller(Compress(flush)));
    CompressTail(Do(a, Caller(Compress(flush))), acts, b);
  }

  /* ---------- the streams, for callers that keep the contract ---------- */

  /** What the compiler's callers do: hand over the bytes that follow those already read, never
      call without output room, call without flushing only with input pending, and flush only
      when all the rest has been handed over. */
  predicate Obeys(a: System, act: Action, data: seq<Byte>) {
    match act
    case Worker => true
    case Caller(op) =>
      match op
      case Go => true
      case SetNextOut(_) => true
      case SetNextIn(bytes) => a.x.got + bytes <= data && (a.x.finish ==> a.x.got + bytes == data)
      case Compress(flush) => a.x.room > 0 && (if flush then a.x.got + a.x.input == data else a.x.input != [])
      case End => false
      case Init(_) => false
  }

  ghost predicate ContractRun(a: System, acts: seq<Action>, b: System, data: seq<Byte>)
    decreases |acts|
  {
    if acts == [] then a == b
    else Enabled(a, acts[0]) && Obeys(a, acts[0], data) && ContractRun(Do(a, acts[0]), acts[1..], b, data)
  }

  /** Inside `Init`, with its `End` first. */
  predicate InInit(a: System, script: seq<Request>) {
    match a.caller
    case EndEnter(k) => k == ThenInit(script)
    case EndKill(k) => k == ThenInit(script)
    case EndSignal(k) => k == ThenInit(script)
    case EndJoin(k) => k == ThenInit(script)
    case EndClose(k) => k == ThenInit(script)
    case InitFlags(s) => s == script && a.x.input == [] && a.x.room == 0
    case InitEvents => a.x == Session(script, [], [], 0, [], false, false, Ok)
    case _ => false
  }

  lemma InitStep(a: System, act: Action, script: seq<Request>)
    requires Inv(a) && InInit(a, script) && Enabled(a, act)
    ensures var b := Do(a, act); if b.caller == Idle then JustInitialised(b, script) else InInit(b, script)
  {
    hide Micro, Conclude, Abort, Stalled, Ending, DuringWait, Pump;
    if act.Worker? {
      WorkerInJoin(a);
    }
  }

  /** While `Init` is going on, the worker moves in the join only. */
  lemma WorkerInJoin(a: System)
    requires Inv(a) && WorkerEnabled(a) && (a.caller.EndEnter? || a.caller.EndKill? || a.caller.EndSignal?
               || a.caller.EndJoin? || a.caller.EndClose? || a.caller.InitFlags? || a.caller.InitEvents?)
    ensures a.caller.EndJoin? && WorkerStep(a).caller == a.caller
  {
    hide Micro, Conclude, Abort, Stalled, Ending, DuringWait, Pump;
  }

  lemma {:induction false} InitTail(a: System, acts: seq<Action>, b: System, script: seq<Request>)
    requires Inv(a) && InInit(a, script) && Run(a, acts, b) && Inside(a, acts) && b.caller == Idle
    ensures JustInitialised(b, script)
    decreases |acts|
  {
    InitStep(a, acts[0], script);
    StepKeepsInv(a, acts[0]);
    if Do(a, acts[0]).caller != Idle {
      InitTail(Do(a, acts[0]), acts[1..], b, script);
    }
  }

  /** `Init`, whatever went on before, ends the old thread, in every interleaving, and starts with nothing read,
      nothing written and no buffers. */
  lemma InitStartsOver(a: System, script: seq<Request>, acts: seq<Action>, b: System)
    requires Reachable(a) && a.caller == Idle
    requires Run(Do(a, Caller(Init(script))), acts, b)
    requires Inside(Do(a, Caller(Init(script))), acts) && b.caller == Idle
    ensures JustInitialised(b, script)
  {
    ReachableInv(a);
    StepKeepsInv(a, Caller(Init(script)));
    InitTail(Do(a, Caller(Init(script))), acts, b, script);
  }

  /** Inside `End` on its own; `old_` is the session it began with. */
  predicate InEnd(a: System, old_: Session, running: bool) {
    && a.x.out == old_.out && a.x.got == old_.got
    && match a.caller
       case EndEnter(k) => k == Return && a.x.finished == old_.finished && a.thread == running
       case EndKill(k) => k == Return
       case EndSignal(k) => k == Return && a.x.finished
       case EndJoin(k) => k == Return && a.x.finished
       case EndClose(k) => k == Return && (a.x.finished || !running)
       case _ => false
  }

  predicate Ended(a: System, old_: Session, running: bool) {
    && a.worker == Absent && !a.thread && a.x.input == [] && a.x.room == 0 && (a.x.finished || !running)
    && a.x.out == old_.out && a.x.got == old_.got
  }

  lemma EndStep(a: System, act: Action, old_: Session, running: bool)
    requires Inv(a) && InEnd(a, old_, running) && Enabled(a, act)
    ensures var b := Do(a, act); if b.caller == Idle then Ended(b, old_, running) else InEnd(b, old_, running)
  {
    hide Micro, Conclude, Stalled, Ending, DuringWait, Pump;
    if act.Worker? {
      WorkerInJoin(a);
    }
  }

  lemma {:induction false} EndTail(a: System, acts: seq<Action>, b: System, old_: Session, running: bool)
    requires Inv(a) && InEnd(a, old_, running) && Run(a, acts, b) && Inside(a, acts) && b.caller == Idle
    ensures Ended(b, old_, running)
    decreases |acts|
  {
    EndStep(a, acts[0], old_, running);
    StepKeepsInv(a, acts[0]);
    if Do(a, acts[0]).caller != Idle {
      EndTail(Do(a, acts[0]), acts[1..], b, old_, running);
    }
  }

  /** `End`, in every interleaving, leaves no worker and no buffers behind, reads and writes nothing more, and
      finishes the session if a thread was running. */
  lemma EndStops(a: System, acts: seq<Action>, b: System)
    requires Reachable(a) && a.caller == Idle
    requires Run(Do(a, Caller(End)), acts, b) && Inside(Do(a, Caller(End)), acts) && b.caller == Idle
    ensures Ended(b, a.x, a.thread)
  {
    ReachableInv(a);
    StepKeepsInv(a, Caller(End));
    EndTail(Do(a, Caller(End)), acts, b, a.x, a.thread);
  }

  /** The streams agree, and a worker about to resume finds what it waited for. */
  ghost predicate StreamInv(a: System, data: seq<Byte>, script: seq<Request>) {
    && Faithful(a.x, data, script)
    && (a.caller == Idle || InCompress(a))
    && (a.x.status == Ok || (a.x.status == Finished && a.x.todo == []))
    && (a.x.status == Ok <==> a.worker !in {ExitFlag, ExitSignal, Gone})
    && (a.x.finished ==> a.x.status == Finished)
    && (a.caller.CmpEnter? || a.caller.CmpSetFinish? ==>
          && (a.x.room > 0 || a.x.finished)
          && (if a.caller.flush then a.x.got + a.x.input == data else a.x.input != [] || a.x.finished))
    && (a.caller == CmpLaunch ==> !Stalled(a.x))
    && (a.caller == CmpWait && ((a.worker == Await && a.ioReady) || a.worker == Woken) ==> !Stalled(a.x))
  }

  lemma StreamStep(a: System, act: Action, data: seq<Byte>, script: seq<Request>)
    requires Inv(a) && StreamInv(a, data, script) && Enabled(a, act) && Obeys(a, act, data)
    ensures StreamInv(Do(a, act), data, script)
  {
    if act.Worker? {
      StreamWorker(a, data, script);
    } else if a.caller == Idle {
      StreamBegin(a, act.op, data, script);
    } else {
      StreamCaller(a, data, script);
    }
  }

  lemma StreamWorker(a: System, data: seq<Byte>, script: seq<Request>)
    requires Inv(a) && StreamInv(a, data, script) && WorkerEnabled(a)
    ensures StreamInv(WorkerStep(a), data, script)
  {
    if a.worker == Loop && !Ending(a.x) && !Stalled(a.x) {
      MicroInput(a.x, data, script);
      MicroOutput(a.x, script);
    }
  }

  lemma StreamBegin(a: System, op: Op, data: seq<Byte>, script: seq<Request>)
    requires Inv(a) && StreamInv(a, data, script) && a.caller == Idle && op != Go && Obeys(a, Caller(op), data)
    ensures StreamInv(Begin(a, op), data, script)
  {
  }

  lemma StreamCaller(a: System, data: seq<Byte>, script: seq<Request>)
    requires Inv(a) && StreamInv(a, data, script) && a.caller != Idle && CallerEnabled(a)
    ensures StreamInv(CallerStep(a), data, script)
  {
  }

  lemma {:induction false} StreamRun(a: System, acts: seq<Action>, b: System, data: seq<Byte>, script: seq<Request>)
    requires Inv(a) && StreamInv(a, data, script) && ContractRun(a, acts, b, data)
    ensures Inv(b) && StreamInv(b, data, script)
    decreases |acts|
  {
    if acts != [] {
      StepKeepsInv(a, acts[0]);
      StreamStep(a, acts[0], data, script);
      StreamRun(Do(a, acts[0]), acts[1..], b, data, script);
    }
  }

  /** A wrapper on which `Init` has just returned. */
  predicate JustInitialised(a: System, script: seq<Request>) {
    && a.caller == Idle && a.worker == Absent && !a.thread && !a.needIO && !a.ioReady
    && a.x == Session(script, [], [], 0, [], false, false, Ok)
  }

  /** The code a call returns at the end of any run that keeps the contract, in every interleaving: on an unfinished
      session `Finished` exactly if the call has finished it, with the whole output written, and `Ok` otherwise. On a
      finished one a flush returns `Ok` and anything else is a bad call. */
  lemma CodesOverRuns(a: System, before: seq<Action>, mid: System, flush: bool, acts: seq<Action>, b: System,
                      data: seq<Byte>, script: seq<Request>)
    requires JustInitialised(a, script) && NoFail(script)
    requires ContractRun(a, before, mid, data) && mid.caller == Idle && Obeys(mid, Caller(Compress(flush)), data)
    requires Run(Do(mid, Caller(Compress(flush))), acts, b)
    requires Inside(Do(mid, Caller(Compress(flush))), acts) && b.caller == Idle
    ensures !mid.x.finished ==> (b.ret == Finished <==> b.x.finished) && (b.ret == Ok <==> !b.x.finished)
    ensures !mid.x.finished && b.x.finished ==> b.x.out == Writes(script)
    ensures mid.x.finished ==> b.x == mid.x && b.ret == if flush then Ok else BadCall
  {
    hide Pump, Faithful, Writes;
    StreamsAtStart(a, data, script);
    StreamRun(a, before, mid, data, script);
    var start := Caller(Compress(flush));
    StepKeepsInv(mid, start);
    CompressTail(Do(mid, start), acts, b);
    CallCode(mid.x, mid.thread, flush);
    if !mid.x.finished {
      UnfinishedCall(mid.x, data, script);
    }
  }

  lemma StreamsAtStart(a: System, data: seq<Byte>, script: seq<Request>)
    requires JustInitialised(a, script) && NoFail(script)
    ensures Inv(a) && StreamInv(a, data, script)
  {
    assert [] + Writes(script) == Writes(script);
  }

  lemma UnfinishedCall(x: Session, data: seq<Byte>, script: seq<Request>)
    requires Faithful(x, data, script) && x.status == Ok
    ensures NoFail(x.todo) && x.out + Writes(x.todo) == Writes(script)
  {
  }

  /** Over every interleaving of every caller that keeps the contract: the encoder has read a
      prefix of the data, each byte once and in order; the output areas hold a prefix of what the
      encoder writes on that data; no call fails; and once the compressor is finished the output
      is the whole of it, whatever the chunk sizes were. */
  lemma StreamsArePrefixes(a: System, acts: seq<Action>, b: System, data: seq<Byte>, script: seq<Request>)
    requires JustInitialised(a, script) && NoFail(script) && Asks(script) >= |data|
    requires ContractRun(a, acts, b, data)
    ensures b.x.got <= data && b.x.out <= Writes(script)
    ensures b.x.status in {Ok, Finished}
    ensures b.x.finished ==> b.x.got == data && b.x.out == Writes(script)
  {
    assert [] + Writes(script) == Writes(script);
    StreamRun(a, acts, b, data, script);
    assert b.x.out <= b.x.out + Writes(b.x.todo);
    assert b.x.got <= b.x.got + b.x.input;
    if b.x.finished {
      FinishedStream(b.x, data, script);
    }
  }
}
