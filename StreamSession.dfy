/**
 * The stream driver of `CalculateStatistics` (server/CalculateStatistics.ts):
 * its `readable` handler pulls `frameSize` octets at a time from the request,
 * decodes and folds each block, and the promise it returns settles on the first
 * of: a decode failure, `end`, `error` or `close`.
 *
 * The request is modelled as a sequence of events. The request's internal
 * buffer follows Node's paused-mode `read(size)`: it hands out `size` octets once
 * that many are buffered, the short remainder once the stream has ended, and
 * nothing otherwise; `end` is emitted once the buffer is empty.
 */
module StreamSession {
  import opened Wrappers
  import opened Bytes
  import opened FrameDecoder
  import opened Statistics

  /** What the request delivers: a chunk of the body, or one of the three terminal signals. */
  datatype Event = Chunk(bytes: seq<byte>) | End | TransportError(message: string) | Close

  /** Why the promise was rejected. */
  datatype SessionError =
    | Decode(cause: DecodeError)   // the error `decodeFrame` threw
    | Transport(message: string)   // the request's `error` event
    | ClientClosed                 // "Client request closed"

  /** The state of the promise `CalculateStatistics` returns. */
  datatype Settlement = Pending | Resolved(stat: Aggregate) | Rejected(error: SessionError)

  /**
   * The request's buffer, whether it has ended, the transactions folded into the
   * aggregate so far (in order; the aggregate is their fold) and the promise.
   */
  datatype State = State(buffer: seq<byte>, ended: bool, processed: seq<Transaction>, settlement: Settlement)

  /** A new request: nothing buffered, nothing folded, the promise pending. */
  const Initial := State([], false, [], Pending)

  /**
   * How the `readable` handler consumes the request: `frameSize` octets at a time,
   * each block handed to `decode`.
   */
  datatype Reader = Reader(frameSize: int, decode: seq<byte> -> Result<Transaction, DecodeError>)

  /** The reader of `CalculateStatistics(config)`: `config.frameSize` and `decodeFrame(_, config)`. */
  function ReaderFor(layout: Layout): Reader
  {
    Reader(layout.frameSize, block => FrameDecoder.Decode(block, layout))
  }

  /** A promise settles once: a later `resolve` or `reject` is ignored. */
  function Settle(s: Settlement, next: Settlement): Settlement
  {
    if s.Pending? then next else s
  }

  /** How many octets `read(size)` hands out; 0 stands for `null`. */
  function ReadLength(buffer: seq<byte>, size: int, ended: bool): (n: nat)
    ensures n <= |buffer|
    ensures n > 0 ==> size > 0 && (n == size || (ended && n == |buffer| < size))
    ensures n == 0 ==> size <= 0 || buffer == [] || (!ended && |buffer| < size)
  {
    if size <= 0 then 0
    else if |buffer| >= size then size
    else if ended then |buffer|
    else 0
  }

  /** One pass of the loop body: decode `block` and fold it, or reject with the error. */
  function Absorb(s: State, block: seq<byte>, reader: Reader): (r: State)
    ensures r.buffer == s.buffer && r.ended == s.ended
    ensures r.settlement == s.settlement || (s.settlement.Pending? && r.settlement.Rejected?)
  {
    match reader.decode(block)
    case Success(tx) => s.(processed := s.processed + [tx])
    case Failure(e) => s.(settlement := Settle(s.settlement, Rejected(Decode(e))))
  }

  /**
   * The `readable` handler: read and absorb blocks until `read` returns null.
   * A failed block rejects the promise but does not stop the loop.
   */
  function Drain(s: State, reader: Reader): (r: State)
    ensures r.ended == s.ended
    ensures ReadLength(r.buffer, reader.frameSize, r.ended) == 0
    ensures r.settlement == s.settlement || (s.settlement.Pending? && r.settlement.Rejected?)
    decreases |s.buffer|
  {
    var n := ReadLength(s.buffer, reader.frameSize, s.ended);
    if n == 0 then s
    else Drain(Absorb(s.(buffer := s.buffer[n..]), s.buffer[..n], reader), reader)
  }

  /** The effect of one event on the request and the promise. */
  function Step(s: State, e: Event, reader: Reader, zone: int): State
  {
    match e
    case Chunk(bytes) => Drain(s.(buffer := s.buffer + bytes), reader)
    case End =>
      var d := Drain(s.(ended := true), reader);
      if d.buffer == [] then d.(settlement := Settle(d.settlement, Resolved(FoldAll(Empty, d.processed, zone)))) else d
    case TransportError(message) => s.(settlement := Settle(s.settlement, Rejected(Transport(message))))
    case Close => s.(settlement := Settle(s.settlement, Rejected(ClientClosed)))
  }

  /** The state after the events, in arrival order. */
  function Run(events: seq<Event>, reader: Reader, zone: int): State
  {
    if events == [] then Initial
    else Step(Run(events[..|events| - 1], reader, zone), events[|events| - 1], reader, zone)
  }

  /** The request and the promise of one call of `CalculateStatistics(config)(request)`. */
  class Session {
    const layout: Layout
    const zone: int
    const stat: Stat
    var buffer: seq<byte>
    var ended: bool
    var settlement: Settlement
    /** The transactions handed to `processTransaction` so far, in order. */
    ghost var processed: seq<Transaction>

    /** The aggregate is the fold of the transactions processed so far. */
    ghost predicate Valid()
      reads this, stat
    {
      stat.Snapshot() == FoldAll(Empty, processed, zone)
    }

    ghost function Current(): State
      reads this
    {
      State(buffer, ended, processed, settlement)
    }

    constructor (layout: Layout, zone: int)
      ensures Valid() && Current() == Initial
      ensures this.layout == layout && this.zone == zone
    {
      this.layout := layout;
      this.zone := zone;
      stat := new Stat();
      buffer := [];
      ended := false;
      settlement := Pending;
      processed := [];
    }

    /** `request.read(size)`. */
    method Read(size: int) returns (block: Option<seq<byte>>)
      modifies this`buffer
      ensures var n := ReadLength(old(buffer), size, ended);
        if n == 0 then block == None && buffer == old(buffer)
        else block == Some(old(buffer)[..n]) && buffer == old(buffer)[n..]
    {
      var n := ReadLength(buffer, size, ended);
      if n == 0 {
        block := None;
      } else {
        block := Some(buffer[..n]);
        buffer := buffer[n..];
      }
    }

    /** `reject(error)`. */
    method Reject(error: SessionError)
      modifies this`settlement
      ensures settlement == Settle(old(settlement), Rejected(error))
    {
      if settlement.Pending? {
        settlement := Rejected(error);
      }
    }

    /** `processTransaction(stat, tx)`, recording `tx` as processed. */
    method Process(tx: Transaction)
      requires Valid()
      modifies this`processed, stat
      ensures Valid() && processed == old(processed) + [tx]
    {
      stat.ProcessTransaction(tx, zone);
      processed := processed + [tx];
      assert processed[..|processed| - 1] == old(processed);
    }

    /** One pass of the `readable` loop: read a block and, if there was one, decode it and fold it or reject. */
    method ReadAndAbsorb() returns (more: bool)
      requires Valid()
      modifies this, stat
      ensures Valid()
      ensures var s, n := old(Current()), ReadLength(old(buffer), layout.frameSize, old(ended));
        more == (n > 0) &&
        Current() == if n == 0 then s else Absorb(s.(buffer := s.buffer[n..]), s.buffer[..n], ReaderFor(layout))
    {
      var chunk := Read(layout.frameSize);
      if chunk.None? {
        return false;
      }
      AbsorbBlock(chunk.value);
      return true;
    }

    /** The loop body for one block: `decodeFrame`, then `processTransaction` or `reject`. */
    method AbsorbBlock(block: seq<byte>)
      requires Valid()
      modifies this`processed, this`settlement, stat
      ensures Valid() && Current() == Absorb(old(Current()), block, ReaderFor(layout))
    {
      var transaction := DecodeFrame(block, layout);
      match transaction {
        case Success(tx) => Process(tx);
        case Failure(e) => Reject(Decode(e));
      }
    }

    /** The `readable` handler: loop until `read` returns null. */
    method OnReadable()
      requires Valid()
      modifies this, stat
      ensures Valid() && Current() == Drain(old(Current()), ReaderFor(layout))
    {
      while true
        invariant Valid()
        invariant Drain(Current(), ReaderFor(layout)) == Drain(old(Current()), ReaderFor(layout))
        decreases |buffer|
      {
        var more := ReadAndAbsorb();
        if !more {
          break;
        }
      }
    }

    /** A chunk arrives: it joins the buffer and the `readable` handler runs. */
    method OnChunk(bytes: seq<byte>)
      requires Valid()
      modifies this, stat
      ensures Valid() && Current() == Step(old(Current()), Chunk(bytes), ReaderFor(layout), zone)
    {
      buffer := buffer + bytes;
      OnReadable();
    }

    /** The body ends: `readable` runs once more for the remainder, then `end` resolves with the aggregate once the buffer is empty. */
    method OnEnd()
      requires Valid()
      modifies this, stat
      ensures Valid() && Current() == Step(old(Current()), End, ReaderFor(layout), zone)
    {
      ended := true;
      OnReadable();
      if buffer == [] && settlement.Pending? {
        settlement := Resolved(stat.Snapshot());
      }
    }

    /** The `error` handler. */
    method OnError(message: string)
      requires Valid()
      modifies this
      ensures Valid() && Current() == Step(old(Current()), TransportError(message), ReaderFor(layout), zone)
    {
      Reject(Transport(message));
    }

    /** The `close` handler. */
    method OnClose()
      requires Valid()
      modifies this
      ensures Valid() && Current() == Step(old(Current()), Close, ReaderFor(layout), zone)
    {
      Reject(ClientClosed);
    }
  }

  // ----- Settlement -----

  /** Running a list of events that ends in `e` is running the rest and then `e`. */
  lemma RunSnoc(events: seq<Event>, e: Event, reader: Reader, zone: int)
    ensures Run(events + [e], reader, zone) == Step(Run(events, reader, zone), e, reader, zone)
  {
    assert (events + [e])[..|events|] == events;
  }

  /** The first settlement wins: once the promise has settled, no later event changes it. */
  lemma {:induction false} FirstSettlementWins(events: seq<Event>, later: seq<Event>, reader: Reader, zone: int)
    requires !Run(events, reader, zone).settlement.Pending?
    ensures Run(events + later, reader, zone).settlement == Run(events, reader, zone).settlement
  {
    if later == [] {
      assert events + later == events;
    } else {
      var front := later[..|later| - 1];
      FirstSettlementWins(events, front, reader, zone);
      assert events + later == (events + front) + [later[|later| - 1]];
      RunSnoc(events + front, later[|later| - 1], reader, zone);
    }
  }

  /** Without an `end` event the aggregate is never delivered. */
  lemma {:induction false} NoEndNoAggregate(events: seq<Event>, reader: Reader, zone: int)
    requires forall i :: 0 <= i < |events| ==> !events[i].End?
    ensures !Run(events, reader, zone).settlement.Resolved?
  {
    if events != [] {
      NoEndNoAggregate(events[..|events| - 1], reader, zone);
    }
  }

  /**
   * An `error` or `close` that arrives before any `end` rejects the promise, with
   * that error unless a decode failure already did; whatever follows, the
   * aggregate is never delivered.
   */
  lemma InterruptedStreamRejected(before: seq<Event>, e: Event, after: seq<Event>, reader: Reader, zone: int)
    requires e.Close? || e.TransportError?
    requires forall i :: 0 <= i < |before| ==> !before[i].End?
    ensures Run(before + [e] + after, reader, zone).settlement.Rejected?
    ensures Run(before, reader, zone).settlement.Pending? ==>
      Run(before + [e] + after, reader, zone).settlement
        == Rejected(if e.Close? then ClientClosed else Transport(e.message))
  {
    NoEndNoAggregate(before, reader, zone);
    RunSnoc(before, e, reader, zone);
    FirstSettlementWins(before + [e], after, reader, zone);
  }

  // ----- Blocks are taken exactly frameSize octets at a time, in arrival order -----

  /** The octets of `parts`, in order. */
  function Flatten(parts: seq<seq<byte>>): (r: seq<byte>)
  {
    if parts == [] then [] else parts[0] + Flatten(parts[1..])
  }

  lemma {:induction false} FlattenSnoc(parts: seq<seq<byte>>, last: seq<byte>)
    ensures Flatten(parts + [last]) == Flatten(parts) + last
  {
    if parts != [] {
      assert (parts + [last])[1..] == parts[1..] + [last];
      FlattenSnoc(parts[1..], last);
    }
  }

  /** A body delivered as the chunks `parts`. */
  function Chunks(parts: seq<seq<byte>>): (events: seq<Event>)
    ensures |events| == |parts|
    ensures forall i :: 0 <= i < |parts| ==> events[i] == Chunk(parts[i])
  {
    seq(|parts|, i requires 0 <= i < |parts| => Chunk(parts[i]))
  }

  /** Draining, appending a chunk and draining again is draining once after the append. */
  lemma {:induction false} DrainAppend(s: State, bytes: seq<byte>, reader: Reader)
    requires !s.ended
    ensures var d := Drain(s, reader);
      Drain(d.(buffer := d.buffer + bytes), reader) == Drain(s.(buffer := s.buffer + bytes), reader)
    decreases |s.buffer|
  {
    var n := ReadLength(s.buffer, reader.frameSize, false);
    if n > 0 {
      var t := Absorb(s.(buffer := s.buffer[n..]), s.buffer[..n], reader);
      DrainAppend(t, bytes, reader);
      var joined := s.buffer + bytes;
      assert ReadLength(joined, reader.frameSize, false) == n;
      assert joined[..n] == s.buffer[..n];
      assert joined[n..] == s.buffer[n..] + bytes;
    }
  }

  /** Chunk boundaries do not matter: the state after the chunks is that after one chunk holding all their octets. */
  lemma {:induction false} ChunkBoundariesIrrelevant(parts: seq<seq<byte>>, reader: Reader, zone: int)
    ensures Run(Chunks(parts), reader, zone) == Drain(Initial.(buffer := Flatten(parts)), reader)
  {
    if parts != [] {
      var front, last := parts[..|parts| - 1], parts[|parts| - 1];
      assert parts == front + [last];
      ChunkBoundariesIrrelevant(front, reader, zone);
      var start := Initial.(buffer := Flatten(front));
      RunChunksSnoc(front, last, reader, zone);
      DrainAppend(start, last, reader);
      FlattenSnoc(front, last);
      assert start.(buffer := start.buffer + last) == Initial.(buffer := Flatten(parts));
    }
  }

  lemma RunChunksSnoc(front: seq<seq<byte>>, last: seq<byte>, reader: Reader, zone: int)
    ensures var s := Run(Chunks(front), reader, zone);
      Run(Chunks(front + [last]), reader, zone) == Drain(s.(buffer := s.buffer + last), reader)
  {
    assert Chunks(front + [last]) == Chunks(front) + [Chunk(last)];
    RunSnoc(Chunks(front), Chunk(last), reader, zone);
  }

  /** Absorbing the blocks one after the other, first block first. */
  function AbsorbAll(s: State, blocks: seq<seq<byte>>, reader: Reader): State
    decreases |blocks|
  {
    if blocks == [] then s else AbsorbAll(Absorb(s, blocks[0], reader), blocks[1..], reader)
  }

  /** Whether every block is exactly one frame long. */
  predicate AllFrameSized(frames: seq<seq<byte>>, frameSize: int) {
    forall i :: 0 <= i < |frames| ==> |frames[i]| == frameSize
  }

  /**
   * Draining a buffer made of whole frames followed by a short remainder absorbs
   * the frames in order; the remainder stays buffered while the stream is open,
   * and once it has ended is handed to the decoder as a last, short block.
   */
  lemma {:induction false} DrainFrames(s: State, frames: seq<seq<byte>>, rest: seq<byte>, reader: Reader)
    requires reader.frameSize > 0 && AllFrameSized(frames, reader.frameSize) && |rest| < reader.frameSize
    decreases |frames|
    ensures var absorbed := AbsorbAll(s.(buffer := if s.ended then [] else rest), frames, reader);
      Drain(s.(buffer := Flatten(frames) + rest), reader)
        == if s.ended && rest != [] then Absorb(absorbed, rest, reader) else absorbed
  {
    var start := s.(buffer := Flatten(frames) + rest);
    if frames == [] {
      assert start.buffer == rest;
      if s.ended && rest != [] {
        assert rest[|rest|..] == [] && rest[..|rest|] == rest;
      }
    } else {
      var n := reader.frameSize;
      assert start.buffer == frames[0] + (Flatten(frames[1..]) + rest);
      assert start.buffer[..n] == frames[0];
      assert start.buffer[n..] == Flatten(frames[1..]) + rest;
      var next := Absorb(s, frames[0], reader);
      DrainFrames(next, frames[1..], rest, reader);
      assert Absorb(start.(buffer := start.buffer[n..]), frames[0], reader)
          == next.(buffer := Flatten(frames[1..]) + rest);
      assert Absorb(s.(buffer := if s.ended then [] else rest), frames[0], reader)
          == next.(buffer := if s.ended then [] else rest);
    }
  }

  /** Whether `frames` decode, one by one, to `txs`. */
  predicate DecodesTo(frames: seq<seq<byte>>, txs: seq<Transaction>, reader: Reader)
    decreases |frames|
  {
    |frames| == |txs| &&
    (frames != [] ==> reader.decode(frames[0]) == Success(txs[0]) && DecodesTo(frames[1..], txs[1..], reader))
  }

  /** `DecodesTo` is frame-by-frame decoding. */
  lemma {:induction false} DecodesToIndexwise(frames: seq<seq<byte>>, txs: seq<Transaction>, reader: Reader)
    requires |frames| == |txs|
    ensures DecodesTo(frames, txs, reader)
      <==> forall i :: 0 <= i < |frames| ==> reader.decode(frames[i]) == Success(txs[i])
    decreases |frames|
  {
    if frames != [] {
      DecodesToIndexwise(frames[1..], txs[1..], reader);
      if forall i :: 0 <= i < |frames| ==> reader.decode(frames[i]) == Success(txs[i]) {
        forall i | 0 <= i < |frames| - 1
          ensures reader.decode(frames[1..][i]) == Success(txs[1..][i])
        {
          assert frames[1..][i] == frames[i + 1];
        }
      }
      if DecodesTo(frames, txs, reader) {
        forall i | 0 <= i < |frames|
          ensures reader.decode(frames[i]) == Success(txs[i])
        {
          if i > 0 {
            assert frames[i] == frames[1..][i - 1];
          }
        }
      }
    }
  }

  /** A block that decodes is recorded as processed and nothing else changes. */
  lemma AbsorbDecoded(s: State, block: seq<byte>, tx: Transaction, reader: Reader)
    requires reader.decode(block) == Success(tx)
    ensures Absorb(s, block, reader) == s.(processed := s.processed + [tx])
  {
  }

  /** Absorbing frames that all decode processes their transactions, in order, and settles nothing. */
  lemma {:induction false} AbsorbDecodedFrames(s: State, frames: seq<seq<byte>>, txs: seq<Transaction>, reader: Reader)
    requires DecodesTo(frames, txs, reader)
    ensures AbsorbAll(s, frames, reader) == s.(processed := s.processed + txs)
    decreases |frames|
  {
    if frames == [] {
      assert s.processed + txs == s.processed;
    } else {
      AbsorbDecoded(s, frames[0], txs[0], reader);
      var next := s.(processed := s.processed + [txs[0]]);
      AbsorbDecodedFrames(next, frames[1..], txs[1..], reader);
      assert s.processed + [txs[0]] + txs[1..] == s.processed + txs;
    }
  }

  /** When frame `i` is the first that fails to decode, the promise is rejected with its error. */
  lemma {:induction false} AbsorbFirstFailure(s: State, frames: seq<seq<byte>>, i: nat, reader: Reader)
    requires s.settlement.Pending? && i < |frames|
    requires forall j :: 0 <= j < i ==> reader.decode(frames[j]).Success?
    requires reader.decode(frames[i]).Failure?
    ensures AbsorbAll(s, frames, reader).settlement == Rejected(Decode(reader.decode(frames[i]).error))
    decreases i
  {
    if i == 0 {
      AbsorbKeepsSettled(Absorb(s, frames[0], reader), frames[1..], reader);
    } else {
      AbsorbFirstFailure(Absorb(s, frames[0], reader), frames[1..], i - 1, reader);
    }
  }

  lemma {:induction false} AbsorbKeepsSettled(s: State, frames: seq<seq<byte>>, reader: Reader)
    requires !s.settlement.Pending?
    ensures AbsorbAll(s, frames, reader).settlement == s.settlement
    decreases |frames|
  {
    if frames != [] {
      AbsorbKeepsSettled(Absorb(s, frames[0], reader), frames[1..], reader);
    }
  }

  // ----- Outcomes of whole streams -----

  /**
   * A body that splits into whole frames which all decode, delivered in chunks of
   * any sizes and followed by `end`, resolves the promise with the fold of the
   * frames' transactions in arrival order.
   */
  lemma CleanStreamResolves(parts: seq<seq<byte>>, frames: seq<seq<byte>>, txs: seq<Transaction>, layout: Layout, zone: int)
    requires layout.frameSize > 0 && AllFrameSized(frames, layout.frameSize) && Flatten(parts) == Flatten(frames)
    requires |frames| == |txs|
    requires forall i :: 0 <= i < |frames| ==> FrameDecoder.Decode(frames[i], layout) == Success(txs[i])
    ensures Run(Chunks(parts) + [End], ReaderFor(layout), zone).settlement == Resolved(FoldAll(Empty, txs, zone))
  {
    var reader := ReaderFor(layout);
    ChunkBoundariesIrrelevant(parts, reader, zone);
    assert Flatten(frames) + [] == Flatten(frames);
    DrainFrames(Initial, frames, [], reader);
    DecodesToIndexwise(frames, txs, reader);
    AbsorbDecodedFrames(Initial, frames, txs, reader);
    assert [] + txs == txs;
    RunSnoc(Chunks(parts), End, reader, zone);
  }

  /**
   * Fail fast on corruption: when a whole frame fails to decode, the promise is
   * rejected with the first such failure, whatever events follow (a later `end`
   * included), so no partial aggregate is delivered.
   */
  lemma CorruptFrameRejects(parts: seq<seq<byte>>, frames: seq<seq<byte>>, rest: seq<byte>, i: nat, later: seq<Event>, layout: Layout, zone: int)
    requires layout.frameSize > 0 && AllFrameSized(frames, layout.frameSize) && |rest| < layout.frameSize
    requires Flatten(parts) == Flatten(frames) + rest
    requires i < |frames|
    requires forall j :: 0 <= j < i ==> FrameDecoder.Decode(frames[j], layout).Success?
    requires FrameDecoder.Decode(frames[i], layout).Failure?
    ensures Run(Chunks(parts) + later, ReaderFor(layout), zone).settlement == Rejected(Decode(FrameDecoder.Decode(frames[i], layout).error))
  {
    var reader := ReaderFor(layout);
    ChunkBoundariesIrrelevant(parts, reader, zone);
    DrainFrames(Initial, frames, rest, reader);
    AbsorbFirstFailure(Initial.(buffer := rest), frames, i, reader);
    FirstSettlementWins(Chunks(parts), later, reader, zone);
  }

  /**
   * No silent discard: when the body ends with fewer than `frameSize` octets after
   * its whole frames, `read` hands that remainder to the decoder, whose length
   * check rejects the promise; the later `end` cannot resolve it.
   */
  lemma ShortRemainderRejects(parts: seq<seq<byte>>, frames: seq<seq<byte>>, txs: seq<Transaction>, rest: seq<byte>, later: seq<Event>, layout: Layout, zone: int)
    requires layout.frameSize > 0 && AllFrameSized(frames, layout.frameSize) && 0 < |rest| < layout.frameSize
    requires Flatten(parts) == Flatten(frames) + rest
    requires |frames| == |txs|
    requires forall i :: 0 <= i < |frames| ==> FrameDecoder.Decode(frames[i], layout) == Success(txs[i])
    ensures Run(Chunks(parts) + [End] + later, ReaderFor(layout), zone).settlement
      == Rejected(Decode(FrameSizeMismatch(layout.frameSize, |rest|)))
  {
    var reader := ReaderFor(layout);
    ChunkBoundariesIrrelevant(parts, reader, zone);
    DrainFrames(Initial, frames, rest, reader);
    DecodesToIndexwise(frames, txs, reader);
    AbsorbDecodedFrames(Initial.(buffer := rest), frames, txs, reader);
    var open := Run(Chunks(parts), reader, zone);
    assert open == Initial.(buffer := rest, processed := txs);
    DrainFrames(open.(ended := true), [], rest, reader);
    assert Flatten([]) + rest == rest;
    RunSnoc(Chunks(parts), End, reader, zone);
    FirstSettlementWins(Chunks(parts) + [End], later, reader, zone);
  }
}
