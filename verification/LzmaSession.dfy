/**
 The data side of the LZMA wrapper: what the encoder asks for, what the caller
 has supplied, and the sequential meaning of one `Compress` call.

 The encoder itself is opaque.  `ReadPart` only returns short at the end of the
 stream, so the encoder sees the same bytes however the caller chunks them and
 its behaviour on one stream is a fixed list of requests, its *script*.
 */
module LzmaSession {

  import opened Bytes

  /** A request the encoder makes of its streams; `Fail` is an encoder error of its own. */
  datatype Request = Read(n: nat) | Write(bytes: seq<Byte>) | Fail

  /** The `res` field and the values `Compress` returns. */
  datatype Status = Ok | Finished | BadCall | ThreadError | IoError

  /** The fields the caller and the worker share, with the history of both streams. */
  datatype Session = Session(
    todo: seq<Request>,   // requests not yet served; the head may be half served
    got: seq<Byte>,       // bytes the encoder has read
    input: seq<Byte>,     // next_in[0..avail_in]
    room: nat,            // avail_out
    out: seq<Byte>,       // bytes put into the output areas so far
    finish: bool,
    finished: bool,       // compressor_finished
    status: Status)

  function Min(a: nat, b: nat): nat {
    if a < b then a else b
  }

  /** The head request cannot be served with what the caller has supplied. */
  predicate Stalled(x: Session) {
    x.todo != [] && match x.todo[0]
      case Read(n) => n > 0 && x.input == [] && !x.finish
      case Write(bytes) => bytes != [] && x.room == 0
      case Fail => false
  }

  /** The encoder is about to return. */
  predicate Ending(x: Session) {
    x.todo == [] || x.todo[0].Fail?
  }

  /** One turn of the copy loop in `ReadPart` or `WritePart`, or the return from it. */
  function Micro(x: Session): Session
    requires !Stalled(x) && !Ending(x)
  {
    match x.todo[0]
    case Read(n) =>
      if n == 0 || x.input == [] then x.(todo := x.todo[1..])
      else
        var l := Min(n, |x.input|);
        x.(todo := [Read(n - l)] + x.todo[1..], got := x.got + x.input[..l], input := x.input[l..])
    case Write(bytes) =>
      if bytes == [] then x.(todo := x.todo[1..])
      else
        var l := Min(|bytes|, x.room);
        x.(todo := [Write(bytes[l..])] + x.todo[1..], out := x.out + bytes[..l], room := x.room - l)
  }

  /** `CompressReal` after the encoder returned: the result code is recorded. */
  function Conclude(x: Session): Session
    requires Ending(x)
  {
    x.(status := if x.status != Ok then x.status else if x.todo == [] then Finished else IoError, todo := [])
  }

  /** The encoder's return after `Read` or `Write` reported E_ABORT. */
  function Abort(x: Session): Session {
    x.(status := if x.status != Ok then x.status else IoError, todo := [])
  }

  /** Work left in a list of requests; every `Micro` step lowers it. */
  function Work(todo: seq<Request>): nat {
    if todo == [] then 0
    else 1 + (match todo[0] case Read(n) => n case Write(bytes) => |bytes| case Fail => 0) + Work(todo[1..])
  }

  lemma MicroWorks(x: Session)
    requires !Stalled(x) && !Ending(x)
    ensures Work(Micro(x).todo) < Work(x.todo)
  {
    var y := Micro(x);
    if |y.todo| == |x.todo| {
      assert y.todo[1..] == x.todo[1..];
    }
  }

  /** Runs the encoder until it must wait for the caller or returns. */
  function Pump(x: Session): Session
    decreases Work(x.todo)
  {
    if Ending(x) then Conclude(x).(finished := true)
    else if Stalled(x) then x
    else MicroWorks(x); Pump(Micro(x))
  }

  /** The worker waking up inside `GetMoreIO`: without new room or input the stream is aborted. */
  function Resume(x: Session): Session {
    if Stalled(x) then Abort(x).(finished := true) else Pump(x)
  }

  /** What one call of `Compress` does to the session, and what it returns. */
  function CompressCall(x: Session, threaded: bool, flush: bool): (Session, Status) {
    if x.finished then (x, if flush then Ok else BadCall)
    else
      var y := if threaded then Resume(x.(finish := flush)) else Pump(x.(finish := flush));
      (y, if y.finished then y.status else Ok)
  }

  /* ---------- what the encoder reads and writes ---------- */

  /** The bytes a script writes in all. */
  function Writes(todo: seq<Request>): seq<Byte> {
    if todo == [] then []
    else (if todo[0].Write? then todo[0].bytes else []) + Writes(todo[1..])
  }

  /** The number of bytes a script asks for in all. */
  function Asks(todo: seq<Request>): nat {
    if todo == [] then 0
    else (if todo[0].Read? then todo[0].n else 0) + Asks(todo[1..])
  }

  predicate NoFail(todo: seq<Request>) {
    forall i :: 0 <= i < |todo| ==> !todo[i].Fail?
  }

  /** Caller and encoder agree on the streams: the encoder has read a prefix of `data`, what is
      pending is the next part of it, and what was written and what is still to be written make
      up the script's output.  An end of stream is only signalled with all of `data` handed over. */
  ghost predicate Faithful(x: Session, data: seq<Byte>, script: seq<Request>) {
    InputAgrees(x, data, script) && OutputAgrees(x, script)
  }

  lemma {:induction false} HeadSplit(r: Request, rest: seq<Request>)
    ensures Writes([r] + rest) == (if r.Write? then r.bytes else []) + Writes(rest)
    ensures Asks([r] + rest) == (if r.Read? then r.n else 0) + Asks(rest)
  {
    assert ([r] + rest)[1..] == rest;
  }

  /** The stream agreement, split so that each half is proved on its own. */
  ghost predicate InputAgrees(x: Session, data: seq<Byte>, script: seq<Request>) {
    && x.got + x.input <= data
    && (x.finish ==> x.got + x.input == data)
    && (x.status in {Ok, Finished} ==> |x.got| + Asks(x.todo) >= Asks(script) || x.got == data)
  }

  ghost predicate OutputAgrees(x: Session, script: seq<Request>) {
    x.status in {Ok, Finished} ==> x.out + Writes(x.todo) == Writes(script) && NoFail(x.todo)
  }

  lemma {:induction false} MicroInput(x: Session, data: seq<Byte>, script: seq<Request>)
    requires !Stalled(x) && !Ending(x) && InputAgrees(x, data, script)
    ensures InputAgrees(Micro(x), data, script)
  {
    var y := Micro(x);
    var rest := x.todo[1..];
    match x.todo[0]
    case Read(n) =>
      if n > 0 && x.input != [] {
        var l := Min(n, |x.input|);
        HeadSplit(Read(n - l), rest);
        assert y.got + y.input == x.got + x.input;
      } else {
        assert x.got + [] == x.got;
      }
    case Write(bytes) =>
      if bytes != [] {
        HeadSplit(Write(bytes[Min(|bytes|, x.room)..]), rest);
      }
  }

  lemma {:induction false} MicroNoFail(x: Session)
    requires !Stalled(x) && !Ending(x) && NoFail(x.todo)
    ensures NoFail(Micro(x).todo)
  {
    var y := Micro(x);
    forall i | 0 <= i < |y.todo| ensures !y.todo[i].Fail? {
      if |y.todo| < |x.todo| {
        assert y.todo[i] == x.todo[i + 1];
      } else if i > 0 {
        assert y.todo[i] == x.todo[i];
      }
    }
  }

  /** A failure of the encoder is not passed over. */
  lemma {:induction false} MicroKeepsFail(x: Session)
    requires !Stalled(x) && !Ending(x) && NoFail(Micro(x).todo)
    ensures NoFail(x.todo)
  {
    var y := Micro(x);
    forall i | 0 <= i < |x.todo| ensures !x.todo[i].Fail? {
      if i > 0 {
        assert x.todo[i] == if |y.todo| < |x.todo| then y.todo[i - 1] else y.todo[i];
      }
    }
  }

  /** How a run of the encoder ends, by what it was still to do: all of it, or up to a failure of its own. */
  lemma {:induction false} PumpEnds(x: Session)
    requires !x.finished && x.status == Ok
    ensures var y := Pump(x);
      && (y.status == Ok <==> !y.finished)
      && (y.status == Finished <==> y.finished && NoFail(x.todo))
      && (y.status == IoError <==> y.finished && !NoFail(x.todo))
      && (y.status == Finished ==> y.out == x.out + Writes(x.todo))
    decreases Work(x.todo)
  {
    if Ending(x) {
      assert x.out + [] == x.out;
    } else if !Stalled(x) {
      MicroWorks(x);
      if NoFail(x.todo) {
        MicroNoFail(x);
      }
      if NoFail(Micro(x).todo) {
        MicroKeepsFail(x);
      }
      MicroWrites(x);
      PumpEnds(Micro(x));
    }
  }

  /** The code `Compress` returns. On a finished session that is `Ok` for a flush and a bad call otherwise, and
      nothing changes. A waiting encoder that is called again without what it waits for gives up. In all other
      cases the code is `Finished` exactly if the call finishes the session with the whole output written, an error
      exactly if the encoder fails, and `Ok` exactly if there is more to do. */
  lemma CallCode(x: Session, threaded: bool, flush: bool)
    requires x.finished || x.status == Ok
    ensures var (y, r) := CompressCall(x, threaded, flush);
      && (x.finished ==> y == x && r == if flush then Ok else BadCall)
      && (!x.finished && threaded && Stalled(x.(finish := flush)) ==> y.finished && r == IoError)
      && (!x.finished && !(threaded && Stalled(x.(finish := flush))) ==>
            && (r == Ok <==> !y.finished)
            && (r == Finished <==> y.finished && NoFail(x.todo))
            && (r == IoError <==> y.finished && !NoFail(x.todo))
            && (r == Finished ==> y.out == x.out + Writes(x.todo)))
  {
    if !x.finished {
      PumpEnds(x.(finish := flush));
    }
  }

  /** What has been written and what the requests still write do not change together. */
  lemma {:induction false} MicroWrites(x: Session)
    requires !Stalled(x) && !Ending(x)
    ensures Micro(x).out + Writes(Micro(x).todo) == x.out + Writes(x.todo)
  {
    var rest := x.todo[1..];
    match x.todo[0]
    case Read(n) =>
      if n > 0 && x.input != [] {
        HeadSplit(Read(n - Min(n, |x.input|)), rest);
      }
    case Write(bytes) =>
      if bytes != [] {
        var l := Min(|bytes|, x.room);
        HeadSplit(Write(bytes[l..]), rest);
        Regroup(x.out, bytes, l, Writes(rest));
      }
  }

  lemma Regroup(a: seq<Byte>, b: seq<Byte>, l: nat, c: seq<Byte>)
    requires l <= |b|
    ensures (a + b[..l]) + (b[l..] + c) == a + (b + c)
  {
    assert b == b[..l] + b[l..];
  }

  lemma MicroOutput(x: Session, script: seq<Request>)
    requires !Stalled(x) && !Ending(x) && OutputAgrees(x, script)
    ensures OutputAgrees(Micro(x), script)
  {
    if x.status in {Ok, Finished} {
      MicroNoFail(x);
      MicroWrites(x);
    }
  }

  /** `Pump` keeps the streams in agreement; if it stops short, it is because the caller's input
      is used up or the output area is full. */
  lemma {:induction false} PumpFaithful(x: Session, data: seq<Byte>, script: seq<Request>)
    requires Faithful(x, data, script) && !x.finished && x.status == Ok
    ensures var y := Pump(x);
      && Faithful(y, data, script)
      && y.finish == x.finish
      && |y.input| <= |x.input| && |x.got| + |x.input| == |y.got| + |y.input|
      && |x.out| <= |y.out| && |y.out| - |x.out| == x.room - y.room
      && (y.finished ==> y.status == Finished && y.todo == [])
      && (!y.finished ==> y.status == Ok && Stalled(y) && (y.room == 0 || y.input == []))
    decreases Work(x.todo)
  {
    if Ending(x) {
      assert x.todo == [];
    } else if !Stalled(x) {
      MicroWorks(x);
      MicroInput(x, data, script);
      MicroOutput(x, script);
      PumpFaithful(Micro(x), data, script);
    }
  }

  /** A completed session holds exactly the script's output, and the encoder has seen exactly
      `data`, provided the script asks for at least that much. */
  lemma FinishedStream(x: Session, data: seq<Byte>, script: seq<Request>)
    requires Faithful(x, data, script) && x.status == Finished && x.todo == []
    ensures x.out == Writes(script)
    ensures Asks(script) >= |data| ==> x.got == data
  {
    assert x.out + Writes([]) == x.out;
  }
}
