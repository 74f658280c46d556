/**
 The datablock: an append-only store of length-prefixed records in which a record
 that is already present is dropped again and the earlier copy is referenced.
 */
module Datablock {
  import opened Bytes
  import opened LzmaSession

  /** The compressor and its inverse, as far as the store can see them: the encoder's script on
      each file, and what unpacking a payload gives. */
  datatype Codec = Codec(script: seq<Byte> -> seq<Request>, inflate: seq<Byte> -> seq<Byte>)

  /** The encoder reads its whole input, does not fail, and its output unpacks to the input. */
  ghost predicate Lossless(codec: Codec) {
    forall d ::
      && NoFail(codec.script(d)) && Asks(codec.script(d)) >= |d|
      && codec.inflate(Writes(codec.script(d))) == d
  }

  /** The part of the wrapper a single-threaded caller sees. */
  class Compressor {
    var x: Session
    var threaded: bool

    constructor ()
      ensures x.finished && !threaded
    {
      x := Session([], [], [], 0, [], false, true, Ok);
      threaded := false;
    }

    method Init(script: seq<Request>)
      modifies this
      ensures x == Session(script, [], [], 0, [], false, false, Ok) && !threaded
    {
      x := Session(script, [], [], 0, [], false, false, Ok);
      threaded := false;
    }

    method SetNextIn(bytes: seq<Byte>)
      modifies this`x
      ensures x == old(x).(input := bytes)
    {
      x := x.(input := bytes);
    }

    method SetNextOut(size: nat)
      modifies this`x
      ensures x == old(x).(room := size)
    {
      x := x.(room := size);
    }

    method Compress(flush: bool) returns (status: Status)
      modifies this
      ensures (x, status) == CompressCall(old(x), old(threaded), flush)
      ensures threaded == (old(threaded) || !old(x).finished)
    {
      var r := CompressCall(x, threaded, flush);
      threaded := threaded || !x.finished;
      x, status := r.0, r.1;
    }

    method End()
      modifies this
      ensures x.finished || !old(threaded)
      ensures !threaded && x.input == [] && x.room == 0
    {
      x := x.(input := [], room := 0, finished := x.finished || threaded);
      threaded := false;
    }
  }

  predicate Negative(status: Status) {
    status in {BadCall, ThreadError, IoError}
  }

  /** One call by a caller that keeps the contract: it succeeds, the streams stay in agreement,
      and it stops early only with the input used up or the output area full. */
  lemma CallProgress(x: Session, threaded: bool, flush: bool, data: seq<Byte>, script: seq<Request>)
    requires Faithful(x, data, script) && !x.finished && x.status == Ok && x.room > 0
    requires if flush then x.got + x.input == data else x.input != []
    ensures var (y, r) := CompressCall(x, threaded, flush);
      && Faithful(y, data, script) && !Negative(r)
      && (r == Finished <==> y.finished) && (r == Ok <==> !y.finished)
      && y.finish == flush
      && |x.got| + |x.input| == |y.got| + |y.input| && |y.input| <= |x.input|
      && |x.out| <= |y.out| && |y.out| - |x.out| == x.room - y.room
      && (y.finished ==> y.status == Finished && y.todo == [])
      && (!y.finished ==> y.status == Ok && (y.room == 0 || (!flush && y.input == [])))
  {
    var s := x.(finish := flush);
    assert Faithful(s, data, script);
    PumpFaithful(s, data, script);
    assert !Stalled(s);
  }

  lemma OutputIsPrefix(x: Session, data: seq<Byte>, script: seq<Request>)
    requires Faithful(x, data, script) && x.status in {Ok, Finished}
    ensures x.out <= Writes(script)
  {
    assert x.out <= x.out + Writes(x.todo);
  }

  /** The compressor in the middle of a file: streams in agreement, `payload` collected so far. */
  ghost predicate Midway(x: Session, data: seq<Byte>, script: seq<Request>, payload: seq<Byte>) {
    && Faithful(x, data, script)
    && payload == x.out
    && (x.finished ==> x.status == Finished && x.todo == [])
    && (!x.finished ==> x.status == Ok)
  }

  /** The first loop: hand the file over chunk by chunk, until it is used up or the output is full. */
  method Feed(compressor: Compressor, ghost script: seq<Request>, data: seq<Byte>, chunk: nat, capacity: nat)
    returns (failed: bool, payload: seq<Byte>)
    requires chunk > 0 && capacity > 0 && Asks(script) >= |data|
    requires Midway(compressor.x, data, script, []) && compressor.x.got == [] && !compressor.x.finish
    modifies compressor
    ensures !failed && Midway(compressor.x, data, script, payload) && |payload| <= capacity
    ensures |payload| < capacity ==> compressor.x.got == data && !compressor.x.finish
  {
    failed, payload := false, [];
    var availIn, availOut := |data|, capacity;
    while availIn > 0
      invariant Midway(compressor.x, data, script, payload) && !compressor.x.finish
      invariant 0 <= availIn == |data| - |compressor.x.got|
      invariant 0 < availOut == capacity - |payload|
      decreases availIn + availOut
    {
      var inLen, outLen := Min(chunk, availIn), Min(chunk, availOut);
      Unfinished(compressor.x, data, script);
      var from := |data| - availIn;
      NextSlice(compressor.x, data, from, inLen);
      compressor.SetNextIn(data[from..from + inLen]);
      compressor.SetNextOut(outLen);
      CallProgress(compressor.x, compressor.threaded, false, data, script);
      var ret := compressor.Compress(false);
      if Negative(ret) {
        failed := true;
        return;
      }
      payload := compressor.x.out;
      availIn := availIn - (inLen - |compressor.x.input|);
      availOut := availOut - (outLen - compressor.x.room);
      if availOut == 0 {
        return;
      }
    }
    assert compressor.x.got <= compressor.x.got + compressor.x.input <= data;
  }

  /** An encoder that has not seen the whole file has not finished. */
  lemma Unfinished(x: Session, data: seq<Byte>, script: seq<Request>)
    requires Midway(x, data, script, x.out) && |x.got| < |data| && Asks(script) >= |data|
    ensures !x.finished
  {
    if x.finished {
      FinishedStream(x, data, script);
    }
  }

  lemma NextSlice(x: Session, data: seq<Byte>, from: nat, n: nat)
    requires x.got + x.input <= data && from == |x.got| && from + n <= |data|
    ensures x.got + data[from..from + n] == data[..from + n]
  {
    assert x.got == data[..from];
  }

  /** The second loop: flush until a call produces nothing or the output is full. */
  method Drain(compressor: Compressor, ghost script: seq<Request>, data: seq<Byte>, chunk: nat, capacity: nat,
               fed: seq<Byte>)
    returns (failed: bool, payload: seq<Byte>)
    requires chunk > 0 && |fed| < capacity
    requires Midway(compressor.x, data, script, fed) && compressor.x.got == data && compressor.x.input == []
    modifies compressor
    ensures !failed && Midway(compressor.x, data, script, payload) && |payload| <= capacity
    ensures |payload| < capacity ==> compressor.x.finished
  {
    failed, payload := false, fed;
    var availOut := capacity - |fed|;
    var produced := 1;
    while produced > 0 && availOut > 0
      invariant Midway(compressor.x, data, script, payload)
      invariant compressor.x.got == data && compressor.x.input == []
      invariant 0 <= availOut == capacity - |payload|
      invariant 0 <= produced && (produced == 0 ==> compressor.x.finished)
      decreases availOut, produced
    {
      var outLen := Min(chunk, availOut);
      compressor.SetNextOut(outLen);
      if !compressor.x.finished {
        CallProgress(compressor.x, compressor.threaded, true, data, script);
      }
      var ret := compressor.Compress(true);
      if Negative(ret) {
        failed := true;
        return;
      }
      produced := |compressor.x.out| - |payload|;
      payload := compressor.x.out;
      availOut := availOut - (outLen - compressor.x.room);
    }
  }

  /** Compresses a whole file through buffers of `chunk` bytes into at most `capacity` bytes.
      The result is used exactly if the complete stream leaves room in the output and either
      compression is forced or it is shorter than the file. */
  method CompressFile(script: seq<Request>, data: seq<Byte>, chunk: nat, capacity: nat, force: bool)
    returns (failed: bool, done: bool, payload: seq<Byte>)
    requires chunk > 0 && capacity > 0
    requires NoFail(script) && Asks(script) >= |data|
    ensures !failed
    ensures done <==> |Writes(script)| < capacity && (force || |Writes(script)| < |data|)
    ensures done ==> payload == Writes(script)
  {
    done := false;
    var compressor := new Compressor();
    compressor.Init(script);
    assert [] + Writes(script) == Writes(script);
    failed, payload := Feed(compressor, script, data, chunk, capacity);
    if failed {
      return;
    }
    OutputIsPrefix(compressor.x, data, script);
    if |payload| < capacity {
      compressor.SetNextIn([]);
      assert data + [] == data;
      failed, payload := Drain(compressor, script, data, chunk, capacity, payload);
      if failed {
        return;
      }
      OutputIsPrefix(compressor.x, data, script);
      if compressor.x.finished {
        FinishedStream(compressor.x, data, script);
      }
      done := |payload| < capacity && (force || |payload| < |data|);
    }
    compressor.End();
  }

  /* ---------- records ---------- */

  datatype Cached = Cached(firstInt: nat, start: nat)

  /** The block of one side and the cache of the records in it. */
  datatype Store = Store(block: seq<Byte>, cache: seq<Cached>)

  /** A length word without its compressed bit. */
  function PayloadLength(firstInt: nat): nat {
    firstInt % 0x8000_0000
  }

  ghost predicate CacheFits(s: Store) {
    forall i :: 0 <= i < |s.cache| ==>
      s.cache[i].start + 4 + PayloadLength(s.cache[i].firstInt) <= |s.block|
  }

  function Record(firstInt: nat, payload: seq<Byte>): seq<Byte>
    requires firstInt < DWORD_LIMIT
  {
    Le32(firstInt) + payload
  }

  /** The `i`-th cached record has this length word and these bytes. */
  predicate Same(s: Store, i: nat, firstInt: nat, record: seq<Byte>)
    requires i < |s.cache|
  {
    && s.cache[i].firstInt == firstInt
    && s.cache[i].start + |record| <= |s.block|
    && s.block[s.cache[i].start..s.cache[i].start + |record|] == record
  }

  /** The first cached record that is the same, or the number of records if there is none. */
  function FirstSame(s: Store, firstInt: nat, record: seq<Byte>, from: nat): (i: nat)
    requires from <= |s.cache|
    ensures from <= i <= |s.cache|
    ensures i < |s.cache| ==> Same(s, i, firstInt, record)
    ensures forall j :: from <= j < i ==> !Same(s, j, firstInt, record)
    decreases |s.cache| - from
  {
    if from == |s.cache| || Same(s, from, firstInt, record) then from
    else FirstSame(s, firstInt, record, from + 1)
  }

  /** What adding a record means: an equal cached record is shared, otherwise it is appended. */
  function Place(s: Store, firstInt: nat, record: seq<Byte>, optimize: bool): (Store, nat) {
    var i := FirstSame(s, firstInt, record, 0);
    if optimize && i < |s.cache| then (s, s.cache[i].start)
    else (Store(s.block + record, s.cache + [Cached(firstInt, |s.block|)]), |s.block|)
  }

  /** An equal cached record is shared. */
  predicate Shared(s: Store, firstInt: nat, record: seq<Byte>, optimize: bool) {
    optimize && FirstSame(s, firstInt, record, 0) < |s.cache|
  }

  /** A shared record lies before the end of the block. */
  lemma SharedIsEarlier(s: Store, firstInt: nat, record: seq<Byte>, optimize: bool)
    requires CacheFits(s) && |record| == 4 + PayloadLength(firstInt)
    ensures Place(s, firstInt, record, optimize).1 == |s.block| <==> !Shared(s, firstInt, record, optimize)
  {
  }

  /** A placed record is found at its handle; nothing already stored moves; and with optimization
      a second equal record costs nothing and gets the same handle. */
  lemma PlaceKeeps(s: Store, firstInt: nat, record: seq<Byte>, optimize: bool)
    requires CacheFits(s) && |record| == 4 + PayloadLength(firstInt)
    ensures var (t, h) := Place(s, firstInt, record, optimize);
      && CacheFits(t) && s.block <= t.block
      && h + |record| <= |t.block| && t.block[h..h + |record|] == record
      && (|t.block| == |s.block| + |record| || (optimize && t == s))
      && Place(t, firstInt, record, true).0 == t
      && (optimize ==> Place(t, firstInt, record, true).1 == h)
  {
    var (t, h) := Place(s, firstInt, record, optimize);
    if t != s {
      assert Same(t, |s.cache|, firstInt, record);
      if optimize {
        forall j | 0 <= j < |s.cache| ensures !Same(t, j, firstInt, record) {
          assert !Same(s, j, firstInt, record);
          var p := s.cache[j].start;
          assert p + 4 + PayloadLength(s.cache[j].firstInt) <= |s.block|;
          if s.cache[j].firstInt == firstInt {
            assert t.block[p..p + |record|] == s.block[p..p + |record|];
          }
          assert t.cache[j] == s.cache[j];
        }
      }
    }
  }

  lemma SliceOfSlice(s: seq<Byte>, a: nat, len: nat, from: nat, n: nat)
    requires a + len <= |s| && from + n <= len
    ensures s[a..a + len][from..from + n] == s[a + from..a + from + n]
  {
    var t := s[a..a + len];
    var u, v := t[from..from + n], s[a + from..a + from + n];
    assert forall i :: 0 <= i < n ==> u[i] == v[i];
    assert u == v;
  }

  lemma SliceExtended(s: seq<Byte>, a: nat, n: nat, more: nat)
    requires a + n + more <= |s|
    ensures s[a..a + n + more] == s[a..a + n] + s[a + n..a + n + more]
  {
  }

  /** Two slices that start equally are equal further on exactly if what follows is. */
  lemma SlicesExtended(s: seq<Byte>, a: nat, b: nat, n: nat, more: nat)
    requires a + n + more <= |s| && b + n + more <= |s| && s[a..a + n] == s[b..b + n]
    ensures s[a..a + n + more] == s[b..b + n + more] <==> s[a + n..a + n + more] == s[b + n..b + n + more]
  {
    SliceExtended(s, a, n, more);
    SliceExtended(s, b, n, more);
  }

  /** The chunked comparison in `datablock_optimize`. */
  method SameBytes(block: seq<Byte>, a: nat, b: nat, len: nat, chunk: nat) returns (same: bool)
    requires chunk > 0 && a + len <= |block| && b + len <= |block|
    ensures same <==> block[a..a + len] == block[b..b + len]
  {
    var left := len;
    while left > 0
      invariant 0 <= left <= len
      invariant block[a..a + (len - left)] == block[b..b + (len - left)]
    {
      var l := Min(left, chunk);
      var p, q := a + len - left, b + len - left;
      if block[p..p + l] != block[q..q + l] {
        SliceOfSlice(block, a, len, len - left, l);
        SliceOfSlice(block, b, len, len - left, l);
        return false;
      }
      SlicesExtended(block, a, b, len - left, l);
      left := left - l;
    }
    return true;
  }

  /** `datablock_optimize`: the record has been appended at `start`; if the cache knows an equal
      one, the block is cut back again.  `saved` is what is added to `db_opt_save`. */
  method Optimize(s: Store, start: nat, firstInt: nat, optimize: bool, chunk: nat)
    returns (t: Store, h: nat, saved: nat)
    requires chunk > 0 && start <= |s.block|
    requires CacheFits(Store(s.block[..start], s.cache))
    requires |s.block| - start == 4 + PayloadLength(firstInt)
    ensures (t, h) == Place(Store(s.block[..start], s.cache), firstInt, s.block[start..], optimize)
    ensures saved == (if h == start then 0 else |s.block| - start)
    ensures h == start <==> t.block == s.block
  {
    var thisLen := |s.block| - start;
    ghost var before := Store(s.block[..start], s.cache);
    ghost var record := s.block[start..];
    t := Store(s.block, s.cache + [Cached(firstInt, start)]);
    if !optimize || thisLen < 4 {
      assert s.block == before.block + record;
      return t, start, 0;
    }
    var i := 0;
    while i < |t.cache| - 1
      invariant 0 <= i <= |s.cache|
      invariant forall j :: 0 <= j < i ==> !Same(before, j, firstInt, record)
    {
      if t.cache[i].firstInt == firstInt {
        var pos := t.cache[i].start;
        assert pos + 4 + PayloadLength(before.cache[i].firstInt) <= |before.block|;
        assert before.block[pos..pos + thisLen] == s.block[pos..pos + thisLen];
        assert s.block[start..start + thisLen] == record;
        var same := SameBytes(s.block, start, pos, thisLen, chunk);
        if same {
          assert Same(before, i, firstInt, record);
          var cut := if start < pos + thisLen then pos + thisLen else start;
          t := Store(s.block[..cut], t.cache[..|t.cache| - 1]);
          return t, pos, thisLen;
        }
      }
      i := i + 1;
    }
    assert s.block == before.block + record;
    return t, start, 0;
  }

  /** Forms a record, appends it and lets `Optimize` decide. */
  method Append(s: Store, firstInt: nat, payload: seq<Byte>, optimize: bool, chunk: nat)
    returns (t: Store, h: nat, saved: nat)
    requires chunk > 0 && CacheFits(s) && firstInt < DWORD_LIMIT && PayloadLength(firstInt) == |payload|
    ensures (t, h) == Place(s, firstInt, Record(firstInt, payload), optimize)
    ensures CacheFits(t) && s.block <= t.block
    ensures h + 4 + |payload| <= |t.block| && t.block[h..h + 4 + |payload|] == Record(firstInt, payload)
    ensures |t.block| + saved == |s.block| + 4 + |payload|
    ensures saved == if h == |s.block| then 0 else 4 + |payload|
  {
    var st := |s.block|;
    var record := Record(firstInt, payload);
    var grown := Store(s.block + record, s.cache);
    assert grown.block[..st] == s.block && grown.block[st..] == record;
    PlaceKeeps(s, firstInt, record, optimize);
    t, h, saved := Optimize(grown, st, firstInt, optimize, chunk);
  }

  /* ---------- the builder ---------- */

  /** Settings a script may change between two files. */
  datatype Options = Options(compress: bool, force: bool, optimize: bool)

  datatype Issue = Issue(uninstall: bool, handle: nat, data: seq<Byte>)

  /** The record at `h` unpacks to `data`, as the installer will read it. */
  ghost predicate Decodes(codec: Codec, block: seq<Byte>, h: nat, data: seq<Byte>) {
    && h + 4 <= |block|
    && var firstInt := Get32(block, h);
       var n := PayloadLength(firstInt);
       && h + 4 + n <= |block|
       && var payload := block[h + 4..h + 4 + n];
          data == if firstInt >= HIGH_BIT then codec.inflate(payload) else payload
  }

  lemma DecodesGrows(codec: Codec, block: seq<Byte>, more: seq<Byte>, h: nat, data: seq<Byte>)
    requires block <= more && Decodes(codec, block, h, data)
    ensures Decodes(codec, more, h, data)
  {
    var n := PayloadLength(Get32(block, h));
    assert block[h + 4..h + 4 + n] == more[h + 4..h + 4 + n];
  }

  /** A record as the compiler forms it decodes to its file. */
  lemma RecordDecodes(codec: Codec, block: seq<Byte>, h: nat, firstInt: nat, payload: seq<Byte>)
    requires firstInt < DWORD_LIMIT && PayloadLength(firstInt) == |payload|
    requires h + 4 + |payload| <= |block| && block[h..h + 4 + |payload|] == Record(firstInt, payload)
    ensures Decodes(codec, block, h, if firstInt >= HIGH_BIT then codec.inflate(payload) else payload)
  {
    var r := Record(firstInt, payload);
    assert forall i :: 0 <= i < 4 ==> block[h + i] == r[i] == Le32(firstInt)[i];
    assert Get32(block, h) == Get32(Le32(firstInt), 0);
    assert block[h + 4..h + 4 + |payload|] == r[4..];
  }

  lemma LengthWord(n: nat)
    requires n < HIGH_BIT
    ensures PayloadLength(n) == n && PayloadLength(n + HIGH_BIT) == n
  {
  }

  /** A length word, with the high bit for a compressed payload, and the payload. */
  predicate HasRecord(block: seq<Byte>, h: int, compressed: bool, payload: seq<Byte>) {
    && 0 <= h && h + 4 + |payload| <= |block|
    && Get32(block, h) == |payload| + (if compressed then 0x8000_0000 else 0)
    && block[h + 4..h + 4 + |payload|] == payload
  }

  /** The cache of the store knows an equal record. */
  predicate HasEqual(s: Store, compressed: bool, payload: seq<Byte>) {
    exists i :: 0 <= i < |s.cache| && KnowsAt(s, i, compressed, payload)
  }

  predicate KnowsAt(s: Store, i: nat, compressed: bool, payload: seq<Byte>)
    requires i < |s.cache|
  {
    && s.cache[i].firstInt == |payload| + (if compressed then 0x8000_0000 else 0)
    && HasRecord(s.block, s.cache[i].start, compressed, payload)
  }

  /** The bytes of a record and what they say. */
  lemma RecordSays(block: seq<Byte>, h: nat, compressed: bool, payload: seq<Byte>)
    requires |payload| < HIGH_BIT && h + 4 + |payload| <= |block|
    ensures block[h..h + 4 + |payload|] == Record(|payload| + (if compressed then HIGH_BIT else 0), payload)
            <==> HasRecord(block, h, compressed, payload)
  {
    hide Get32, Le32;
    var word := |payload| + if compressed then HIGH_BIT else 0;
    Halves(block[h..h + 4 + |payload|], Le32(word), payload);
    SliceOfSlice(block, h, 4 + |payload|, 0, 4);
    SliceOfSlice(block, h, 4 + |payload|, 4, |payload|);
    WordSays(block, h, word);
  }

  lemma Halves(s: seq<Byte>, a: seq<Byte>, b: seq<Byte>)
    requires |s| == |a| + |b|
    ensures s == a + b <==> s[0..|a|] == a && s[|a|..|a| + |b|] == b
  {
    assert s == s[0..|a|] + s[|a|..|a| + |b|];
  }

  lemma WordSays(block: seq<Byte>, h: nat, word: nat)
    requires word < DWORD_LIMIT && h + 4 <= |block|
    ensures block[h..h + 4] == Le32(word) <==> Get32(block, h) == word
  {
    var b := block[h..h + 4];
    assert b[0] == block[h] && b[1] == block[h + 1] && b[2] == block[h + 2] && b[3] == block[h + 3];
    assert Get16(b, 0) == Get16(block, h) && Get16(b, 2) == Get16(block, h + 2);
    if Get32(block, h) == word {
      HalfSays(b[..2], word % 0x1_0000);
      HalfSays(b[2..], word / 0x1_0000);
      assert b == b[..2] + b[2..];
    }
  }

  lemma HalfSays(b: seq<Byte>, half: nat)
    requires |b| == 2 && half < WORD_LIMIT && Get16(b, 0) == half
    ensures b == Le16(half)
  {
  }

  /** What placing a record does: it is there afterwards; the block grows by it unless sharing is allowed and the
      cache knows an equal record. */
  lemma PlaceMeans(s: Store, compressed: bool, payload: seq<Byte>, optimize: bool)
    requires CacheFits(s) && |payload| < HIGH_BIT
    ensures var word := |payload| + if compressed then HIGH_BIT else 0;
      var (t, h) := Place(s, word, Record(word, payload), optimize);
      && HasRecord(t.block, h, compressed, payload)
      && (Shared(s, word, Record(word, payload), optimize) <==> optimize && HasEqual(s, compressed, payload))
      && |t.block| == |s.block| + if optimize && HasEqual(s, compressed, payload) then 0 else 4 + |payload|
  {
    hide HasRecord, Record, HasEqual;
    var word := |payload| + if compressed then HIGH_BIT else 0;
    LengthWord(|payload|);
    RecordSize(word, payload);
    PlaceKeeps(s, word, Record(word, payload), optimize);
    var (t, h) := Place(s, word, Record(word, payload), optimize);
    RecordSays(t.block, h, compressed, payload);
    SharedIfKnown(s, compressed, payload, optimize);
  }

  lemma SharedIfKnown(s: Store, compressed: bool, payload: seq<Byte>, optimize: bool)
    requires CacheFits(s) && |payload| < HIGH_BIT
    ensures var word := |payload| + if compressed then HIGH_BIT else 0;
      Shared(s, word, Record(word, payload), optimize) <==> optimize && HasEqual(s, compressed, payload)
  {
    hide HasRecord, Record;
    var word := |payload| + if compressed then HIGH_BIT else 0;
    LengthWord(|payload|);
    RecordSize(word, payload);
    forall i | 0 <= i < |s.cache|
      ensures Same(s, i, word, Record(word, payload)) <==> KnowsAt(s, i, compressed, payload)
    {
      if s.cache[i].firstInt == word {
        assert PayloadLength(word) == |payload|;
        RecordSays(s.block, s.cache[i].start, compressed, payload);
      }
    }
  }

  /** The store after a record was placed, in numbers. */
  predicate Recorded(before: Store, after: Store, h: int, compressed: bool, payload: seq<Byte>, optimize: bool) {
    && HasRecord(after.block, h, compressed, payload)
    && |after.block| == |before.block| + if optimize && HasEqual(before, compressed, payload) then 0 else 4 + |payload|
  }

  lemma RecordSize(word: nat, payload: seq<Byte>)
    requires word < DWORD_LIMIT
    ensures |Record(word, payload)| == 4 + |payload|
  {
  }

  /** Every handle ever returned still decodes to the data it was returned for. */
  ghost predicate AllDecode(codec: Codec, issued: seq<Issue>, build: seq<Byte>, ubuild: seq<Byte>) {
    forall k :: 0 <= k < |issued| ==>
      Decodes(codec, if issued[k].uninstall then ubuild else build, issued[k].handle, issued[k].data)
  }

  lemma AllDecodeAdd(codec: Codec, issued: seq<Issue>, build: seq<Byte>, ubuild: seq<Byte>,
                     build': seq<Byte>, ubuild': seq<Byte>, issue: Issue)
    requires AllDecode(codec, issued, build, ubuild) && build <= build' && ubuild <= ubuild'
    requires Decodes(codec, if issue.uninstall then ubuild' else build', issue.handle, issue.data)
    ensures AllDecode(codec, issued + [issue], build', ubuild')
  {
    var all := issued + [issue];
    forall k | 0 <= k < |all|
      ensures Decodes(codec, if all[k].uninstall then ubuild' else build', all[k].handle, all[k].data)
    {
      if k < |issued| {
        if issued[k].uninstall {
          DecodesGrows(codec, ubuild, ubuild', issued[k].handle, issued[k].data);
        } else {
          DecodesGrows(codec, build, build', issued[k].handle, issued[k].data);
        }
      }
    }
  }

  lemma LosslessAt(codec: Codec, d: seq<Byte>)
    requires Lossless(codec)
    ensures NoFail(codec.script(d)) && Asks(codec.script(d)) >= |d|
    ensures codec.inflate(Writes(codec.script(d))) == d
  {
  }

  /** The room given to the compressor: a quarter and a kilobyte more than the file. */
  function BufferLength(length: nat): (n: nat)
    ensures n > length
  {
    length + 1024 + length / 4
  }

  class Builder {
    const codec: Codec
    const chunk: nat
    var build: Store
    var ubuild: Store
    var uninstall: bool
    var optSave: int
    var compSave: int
    var fullSize: int
    var optSaveU: int
    var compSaveU: int
    var fullSizeU: int
    ghost var issued: seq<Issue>   // every handle ever returned

    function Current(): Store
      reads this
    {
      if uninstall then ubuild else build
    }

    function Other(): Store
      reads this
    {
      if uninstall then build else ubuild
    }

    ghost predicate Valid()
      reads this
    {
      && Lossless(codec) && chunk > 0
      && CacheFits(build) && CacheFits(ubuild)
      && AllDecode(codec, issued, build.block, ubuild.block)
    }

    /** How far the block and what was saved fall short of the full size, on the current side. */
    function Shortfall(): int
      reads this
    {
      fullSize - (|Current().block| + optSave + compSave)
    }

    function OtherShortfall(): int
      reads this
    {
      fullSizeU - (|Other().block| + optSaveU + compSaveU)
    }

    constructor (codec: Codec, chunk: nat)
      requires Lossless(codec) && chunk > 0
      ensures Valid() && issued == [] && !uninstall && this.codec == codec && this.chunk == chunk
      ensures build == Store([], []) && ubuild == Store([], [])
      ensures optSave == compSave == fullSize == 0 && optSaveU == compSaveU == fullSizeU == 0
    {
      this.codec, this.chunk := codec, chunk;
      build, ubuild, uninstall := Store([], []), Store([], []), false;
      optSave, compSave, fullSize, optSaveU, compSaveU, fullSizeU := 0, 0, 0, 0, 0, 0;
      issued := [];
    }

    /** `set_uninstall_mode`: the buffers are switched and the counters swapped. */
    method SetUninstallMode(un: bool)
      requires Valid()
      modifies this
      ensures Valid() && uninstall == un
      ensures build == old(build) && ubuild == old(ubuild) && issued == old(issued)
      ensures un == old(uninstall) ==>
        optSave == old(optSave) && compSave == old(compSave) && fullSize == old(fullSize)
        && optSaveU == old(optSaveU) && compSaveU == old(compSaveU) && fullSizeU == old(fullSizeU)
      ensures un != old(uninstall) ==>
        optSave == old(optSaveU) && compSave == old(compSaveU) && fullSize == old(fullSizeU)
        && optSaveU == old(optSave) && compSaveU == old(compSave) && fullSizeU == old(fullSize)
    {
      hide CacheFits, AllDecode, Lossless;
      if un != uninstall {
        uninstall := un;
        optSave, optSaveU := optSaveU, optSave;
        compSave, compSaveU := compSaveU, compSave;
        fullSize, fullSizeU := fullSizeU, fullSize;
      }
    }

    /** Appends one record to the current side and lets `Optimize` decide. */
    method AddRecord(firstInt: nat, payload: seq<Byte>, ghost data: seq<Byte>, optimize: bool)
      returns (h: nat, kept: bool)
      requires Valid() && firstInt < DWORD_LIMIT && PayloadLength(firstInt) == |payload|
      requires data == if firstInt >= HIGH_BIT then codec.inflate(payload) else payload
      modifies this`build, this`ubuild, this`optSave, this`issued
      ensures (Current(), h) == Place(old(Current()), firstInt, Record(firstInt, payload), optimize)
      ensures (if uninstall then build == old(build) else ubuild == old(ubuild)) && CacheFits(Current())
      ensures old(Current()).block <= Current().block
      ensures issued == old(issued) + [Issue(uninstall, h, data)]
      ensures AllDecode(codec, issued, build.block, ubuild.block)
      ensures |Current().block| + optSave == |old(Current()).block| + old(optSave) + 4 + |payload|
      ensures kept <==> !Shared(old(Current()), firstInt, Record(firstInt, payload), optimize)
      ensures optSave == old(optSave) + if kept then 0 else 4 + |payload|
    {
      hide AllDecode, CacheFits, Lossless, Place, Decodes, Record, Shared;
      var st := |Current().block|;
      var t, saved;
      t, h, saved := Append(Current(), firstInt, payload, optimize, chunk);
      kept := h == st;
      SharedIsEarlier(Current(), firstInt, Record(firstInt, payload), optimize);
      RecordDecodes(codec, t.block, h, firstInt, payload);
      ghost var issue := Issue(uninstall, h, data);
      AllDecodeAdd(codec, issued, build.block, ubuild.block,
                   if uninstall then build.block else t.block, if uninstall then t.block else ubuild.block, issue);
      if uninstall {
        ubuild := t;
      } else {
        build := t;
      }
      optSave := optSave + saved;
      issued := issued + [issue];
    }

    /** `add_db_data` after a successful compression. */
    method StoreCompressed(data: seq<Byte>, payload: seq<Byte>, optimize: bool) returns (h: nat)
      requires Valid() && |payload| < HIGH_BIT && codec.inflate(payload) == data
      modifies this`build, this`ubuild, this`optSave, this`compSave, this`fullSize, this`issued
      ensures Valid()
      ensures issued == old(issued) + [Issue(uninstall, h, data)]
      ensures (Current(), h) == Place(old(Current()), |payload| + HIGH_BIT, Record(|payload| + HIGH_BIT, payload),
                                      optimize)
      ensures old(build).block <= build.block && old(ubuild).block <= ubuild.block
      ensures if uninstall then build == old(build) else ubuild == old(ubuild)
      ensures fullSize == old(fullSize) + |data| + 4
      ensures var shared := Shared(old(Current()), |payload| + HIGH_BIT, Record(|payload| + HIGH_BIT, payload),
                                   optimize);
              && Shortfall() == old(Shortfall()) + (if shared then |data| - |payload| else 0)
              && optSave == old(optSave) + (if shared then 4 + |payload| else 0)
              && compSave == old(compSave) + (if shared then 0 else |data| - |payload|)
              && (shared <==> optimize && HasEqual(old(Current()), true, payload))
              && Recorded(old(Current()), Current(), h, true, payload, optimize)
      ensures |Current().block| <= |old(Current()).block| + 4 + |payload|
    {
      hide Place, AllDecode, CacheFits, Lossless, Shared, Record, HasRecord, HasEqual;
      LengthWord(|payload|);
      PlaceMeans(Current(), true, payload, optimize);
      var kept;
      h, kept := AddRecord(|payload| + HIGH_BIT, payload, data, optimize);
      if kept {
        compSave := compSave + (|data| - |payload|);
      }
      fullSize := fullSize + |data| + 4;
    }

    /** `add_db_data` for a file stored as it is. */
    method StorePlain(data: seq<Byte>, optimize: bool) returns (h: nat)
      requires Valid() && |data| < HIGH_BIT
      modifies this`build, this`ubuild, this`optSave, this`fullSize, this`issued
      ensures Valid()
      ensures issued == old(issued) + [Issue(uninstall, h, data)]
      ensures (Current(), h) == Place(old(Current()), |data|, Record(|data|, data), optimize)
      ensures Shortfall() == old(Shortfall()) && |Current().block| <= |old(Current()).block| + 4 + |data|
      ensures optSave == old(optSave) + if optimize && HasEqual(old(Current()), false, data) then 4 + |data| else 0
      ensures Recorded(old(Current()), Current(), h, false, data, optimize)
      ensures old(build).block <= build.block && old(ubuild).block <= ubuild.block
      ensures if uninstall then build == old(build) else ubuild == old(ubuild)
      ensures fullSize == old(fullSize) + |data| + 4
    {
      hide Place, AllDecode, CacheFits, Lossless, Shared, Record, HasRecord, HasEqual;
      LengthWord(|data|);
      PlaceMeans(Current(), false, data, optimize);
      var kept;
      h, kept := AddRecord(|data|, data, data, optimize);
      fullSize := fullSize + |data| + 4;
    }

    /** The length word and payload `add_db_data` stores for a file. */
    function Stored(data: seq<Byte>, options: Options): (nat, seq<Byte>) {
      var stream := Writes(codec.script(data));
      if data != [] && options.compress && |stream| < BufferLength(|data|) && (options.force || |stream| < |data|)
      then (|stream| + HIGH_BIT, stream)
      else (|data|, data)
    }

    /** The file will be stored compressed, at another size, and an equal record is there to be shared:
        what its compression saves is then not counted. */
    predicate LosesSaving(data: seq<Byte>, options: Options)
      reads this
    {
      var (firstInt, payload) := Stored(data, options);
      && firstInt >= HIGH_BIT && |payload| != |data|
      && firstInt < DWORD_LIMIT && Shared(Current(), firstInt, Record(firstInt, payload), options.optimize)
    }

    /** `add_db_data` for a file that does not push the block past the signed 32-bit range.  The
        file is stored compressed exactly if that pays off or is forced, an equal record is shared,
        and every handle returned before and now decodes to its file. */
    method AddDbData(data: seq<Byte>, options: Options) returns (h: int)
      requires Valid()
      requires |Current().block| + (if options.compress then |data| + 1024 + |data| / 4 else |data|) + 4 < HIGH_BIT
      modifies this`build, this`ubuild, this`optSave, this`compSave, this`fullSize, this`issued
      ensures Valid() && 0 <= h
      ensures issued == old(issued) + [Issue(uninstall, h, data)]
      ensures old(build).block <= build.block && old(ubuild).block <= ubuild.block
      ensures if uninstall then build == old(build) else ubuild == old(ubuild)
      ensures fullSize == old(fullSize) + |data| + 4
      ensures !options.compress ==> compSave == old(compSave)
      ensures var (firstInt, payload) := Stored(data, options);
        firstInt < DWORD_LIMIT &&
        (Current(), h) == Place(old(Current()), firstInt, Record(firstInt, payload), options.optimize)
        && |Current().block| <= |old(Current()).block| + 4 + |payload|
      ensures Shortfall() == old(Shortfall()) +
        if old(LosesSaving(data, options)) then |data| - |Stored(data, options).1| else 0
      ensures Shortfall() == old(Shortfall()) <==> !old(LosesSaving(data, options))
      ensures OtherShortfall() == old(OtherShortfall())
      ensures var stream := Writes(codec.script(data));
        var compressed := data != [] && options.compress &&
                          if options.force then |stream| < |data| + 1024 + |data| / 4 else |stream| < |data|;
        var payload := if compressed then stream else data;
        var shared := options.optimize && HasEqual(old(Current()), compressed, payload);
        && Recorded(old(Current()), Current(), h, compressed, payload, options.optimize)
        && optSave == old(optSave) + (if shared then 4 + |payload| else 0)
        && compSave == old(compSave) + if compressed && !shared then |data| - |payload| else 0
    {
      hide Place, AllDecode, CacheFits, Lossless, Shared, HasEqual, Recorded, Record;
      if |data| > 0 && options.compress {
        LosslessAt(codec, data);
        var failed, done, payload :=
          CompressFile(codec.script(data), data, chunk, BufferLength(|data|), options.force);
        if failed {
          return -1;
        }
        if done {
          h := StoreCompressed(data, payload, options.optimize);
          return;
        }
      }
      h := StorePlain(data, options.optimize);
    }
  }

  /* ---------- runs ---------- */

  /** What a script does to the store without per-file compression. */
  datatype Op = Mode(uninstall: bool) | Add(data: seq<Byte>, optimize: bool)

  /** The bytes that a run can add at most. */
  function Total(ops: seq<Op>): nat {
    if ops == [] then 0
    else
      Total(ops[..|ops| - 1]) + match ops[|ops| - 1] case Mode(_) => 0 case Add(data, _) => |data| + 4
  }

  /** What a run has added, in order, with the mode it was added in. */
  function Added(uninstall: bool, ops: seq<Op>): (bool, seq<(bool, seq<Byte>)>) {
    if ops == [] then (uninstall, [])
    else
      var (un, files) := Added(uninstall, ops[..|ops| - 1]);
      match ops[|ops| - 1]
      case Mode(u) => (u, files)
      case Add(data, _) => (un, files + [(un, data)])
  }

  lemma {:induction false} TotalGrows(ops: seq<Op>, i: nat)
    requires i <= |ops|
    ensures Total(ops[..i]) <= Total(ops)
    decreases |ops| - i
  {
    if i < |ops| {
      assert ops[..i + 1][..i] == ops[..i];
      TotalGrows(ops, i + 1);
    } else {
      assert ops[..i] == ops;
    }
  }

  /** From an empty store, over every sequence of additions and mode switches without per-file
      compression: on both sides block length plus what sharing saved is the full size, and every
      handle decodes to the file it was returned for. */
  method PlainRun(codec: Codec, chunk: nat, ops: seq<Op>) returns (b: Builder, handles: seq<int>)
    requires Lossless(codec) && chunk > 0 && Total(ops) < HIGH_BIT
    ensures |b.Current().block| + b.optSave == b.fullSize
    ensures |b.Other().block| + b.optSaveU == b.fullSizeU
    ensures var (un, files) := Added(false, ops);
      b.uninstall == un && |handles| == |files| &&
      forall k :: 0 <= k < |files| ==>
        handles[k] >= 0 && Decodes(codec, if files[k].0 then b.ubuild.block else b.build.block, handles[k], files[k].1)
  {
    hide Lossless, CacheFits, Place, Shared, Decodes, AllDecode, Recorded, HasEqual, Writes, Record;
    b := new Builder(codec, chunk);
    handles := [];
    for i := 0 to |ops|
      invariant fresh(b) && b.Valid() && b.codec == codec && b.compSave == b.compSaveU == 0
      invariant b.Shortfall() == b.OtherShortfall() == 0
      invariant |b.build.block| + |b.ubuild.block| <= Total(ops[..i])
      invariant Matches(b.issued, handles, Added(false, ops[..i]).1) && b.uninstall == Added(false, ops[..i]).0
    {
      TotalGrows(ops, i + 1);
      assert ops[..i + 1][..i] == ops[..i];
      match ops[i] {
        case Mode(un) =>
          b.SetUninstallMode(un);
        case Add(data, optimize) =>
          var h := b.AddDbData(data, Options(false, false, optimize));
          handles := handles + [h];
      }
    }
    assert ops[..|ops|] == ops;
    MatchesDecode(codec, b.issued, handles, Added(false, ops).1, b.build.block, b.ubuild.block);
  }

  /** The handles are those that were issued, for these files. */
  ghost predicate Matches(issued: seq<Issue>, handles: seq<int>, files: seq<(bool, seq<Byte>)>) {
    && |issued| == |handles| == |files|
    && forall k :: 0 <= k < |files| ==>
         handles[k] == issued[k].handle && files[k] == (issued[k].uninstall, issued[k].data)
  }

  lemma MatchesDecode(codec: Codec, issued: seq<Issue>, handles: seq<int>, files: seq<(bool, seq<Byte>)>,
                      build: seq<Byte>, ubuild: seq<Byte>)
    requires Matches(issued, handles, files) && AllDecode(codec, issued, build, ubuild)
    ensures |handles| == |files|
    ensures forall k :: 0 <= k < |files| ==>
      handles[k] >= 0 && Decodes(codec, if files[k].0 then ubuild else build, handles[k], files[k].1)
  {
  }

  /* ---------- a run that loses a saving ---------- */

  const TWIN: seq<Byte> := [7, 7]

  /** A compressor that knows one file. */
  function OneFileStream(d: seq<Byte>): seq<Byte> {
    if d == TWIN then [0] else [1] + d
  }

  const ONE_FILE := Codec(
    d => [Read(|d|), Write(OneFileStream(d))],
    p => if p == [0] then TWIN else if p == [] then [] else p[1..])

  lemma OneFileStreams(d: seq<Byte>)
    ensures var script := [Read(|d|), Write(OneFileStream(d))];
            Writes(script) == OneFileStream(d) && NoFail(script) && Asks(script) == |d|
  {
    hide OneFileStream;
    var script := [Read(|d|), Write(OneFileStream(d))];
    var rest := [Write(OneFileStream(d))];
    assert script[1..] == rest && rest[1..] == [];
    assert Writes(rest) == OneFileStream(d) + Writes(rest[1..]) == OneFileStream(d);
    assert Writes(script) == [] + Writes(rest) == Writes(rest);
    assert Asks(rest) == 0 + Asks(rest[1..]);
  }

  lemma OneFileUnpacks(d: seq<Byte>)
    ensures ONE_FILE.inflate(OneFileStream(d)) == d
  {
    if d != TWIN {
      assert ([1] + d)[0] == 1 && ([1] + d)[1..] == d;
    }
  }

  lemma OneFileIsLossless()
    ensures Lossless(ONE_FILE)
  {
    hide OneFileStream, Writes, NoFail, Asks;
    forall d: seq<Byte>
      ensures NoFail(ONE_FILE.script(d)) && Asks(ONE_FILE.script(d)) >= |d|
      ensures ONE_FILE.inflate(Writes(ONE_FILE.script(d))) == d
    {
      OneFileStreams(d);
      OneFileUnpacks(d);
    }
  }

  /** The same file twice, compressed and optimized: one byte of the full size is accounted for nowhere. */
  method DuplicateLosesSaving() returns (b: Builder)
    ensures |b.Current().block| + b.optSave + b.compSave == b.fullSize - 1
  {
    hide Lossless, CacheFits, Decodes, AllDecode, Writes, Asks, NoFail;
    OneFileIsLossless();
    OneFileStreams(TWIN);
    b := new Builder(ONE_FILE, 1);
    var options := Options(true, false, true);
    assert b.Stored(TWIN, options) == (1 + HIGH_BIT, [0]);
    var h := b.AddDbData(TWIN, options);
    AgainIsShared(b.Current(), 1 + HIGH_BIT, Record(1 + HIGH_BIT, [0]));
    h := b.AddDbData(TWIN, options);
  }

  /** A record just added to an empty store will be shared. */
  lemma AgainIsShared(s: Store, firstInt: nat, record: seq<Byte>)
    requires s == Place(Store([], []), firstInt, record, true).0
    ensures Shared(s, firstInt, record, true) && s.block == record
    ensures !Shared(Store([], []), firstInt, record, true)
  {
    assert Same(s, 0, firstInt, record);
  }
}
