/**
 * The older request handler of server/server.ts: its `data` listener decodes
 * every transport chunk as exactly one frame of the built-in layout
 * `frameConfig` and folds it into the per-request aggregate; `end` sends the
 * aggregate, `error` sets status 500, and a chunk that fails to decode sends
 * the error and stops the process.
 */
module ChunkHandler {
  import opened Wrappers
  import opened Bytes
  import opened FrameDecoder
  import opened Statistics
  import StreamSession

  /** The events the request delivers (`close` has no listener here). */
  type Event = StreamSession.Event

  /** What the response has carried: nothing yet, the aggregate, or a decode error before the process exits. */
  datatype Reply =
    | Open
    | Sent(status: int, body: Aggregate)
    | Crashed(status: int, error: DecodeError)

  /** The response status, the transactions folded so far (in order) and the reply. */
  datatype Handler = Handler(status: int, processed: seq<Transaction>, reply: Reply)

  /** A new request: status 200, nothing folded, nothing sent. */
  const Start := Handler(200, [], Open)

  /** How each chunk is decoded. */
  type Decoder = seq<byte> -> Result<Transaction, DecodeError>

  /** The handler's decoder: `decodeFrame(chunk, frameConfig)`. */
  function FrameConfigDecode(): Decoder
  {
    block => Decode(block, DefaultLayout)
  }

  /** The listener run for one event, each chunk going through `decode`. */
  function Handle(h: Handler, e: Event, decode: Decoder, zone: int): Handler
  {
    match e
    case Chunk(bytes) =>
      (match decode(bytes)
       case Success(tx) => h.(processed := h.processed + [tx])
       case Failure(error) => h.(reply := Crashed(h.status, error)))
    case End => h.(reply := Sent(h.status, FoldAll(Empty, h.processed, zone)))
    case TransportError(_) => h.(status := 500)
    case Close => h
  }

  /**
   * The handler after the events, in arrival order. Once the response has been
   * sent the request is over, and once a chunk has failed the process is gone:
   * later events reach no listener.
   */
  function HandleAll(events: seq<Event>, decode: Decoder, zone: int): Handler
  {
    if events == [] then Start
    else
      var h := HandleAll(events[..|events| - 1], decode, zone);
      if h.reply.Open? then Handle(h, events[|events| - 1], decode, zone) else h
  }

  /** The per-request state of the handler: `stat` and the response. */
  class Request {
    const zone: int
    const stat: Stat
    var status: int
    var reply: Reply
    /** The transactions folded into `stat` so far, in order. */
    ghost var processed: seq<Transaction>

    /** The aggregate is the fold of the transactions processed so far. */
    ghost predicate Valid()
      reads this, stat
    {
      stat.Snapshot() == FoldAll(Empty, processed, zone)
    }

    ghost function Current(): Handler
      reads this
    {
      Handler(status, processed, reply)
    }

    /** A request arrives: `stat` is the empty aggregate and the status is 200. */
    constructor (zone: int)
      ensures Valid() && Current() == Start && this.zone == zone
    {
      this.zone := zone;
      stat := new Stat();
      status := 200;
      reply := Open;
      processed := [];
    }

    /** The `data` listener: decode the chunk as one frame and fold it, or send the error. */
    method OnData(chunk: seq<byte>)
      requires Valid()
      modifies this, stat
      ensures Valid() && Current() == Handle(old(Current()), StreamSession.Chunk(chunk), FrameConfigDecode(), zone)
    {
      var decoded := DecodeFrame(chunk, DefaultLayout);
      match decoded
      case Success(tx) =>
        stat.ProcessTransaction(tx, zone);
        processed := processed + [tx];
        assert processed[..|processed| - 1] == old(processed);
      case Failure(error) =>
        reply := Crashed(status, error);
    }

    /** The `end` listener: send the aggregate with the current status. */
    method OnEnd()
      requires Valid()
      modifies this
      ensures Valid() && Current() == Handle(old(Current()), StreamSession.End, FrameConfigDecode(), zone)
    {
      reply := Sent(status, stat.Snapshot());
    }

    /** The `error` listener: the status becomes 500; nothing is sent. */
    method OnError(message: string)
      requires Valid()
      modifies this
      ensures Valid() && Current() == Handle(old(Current()), StreamSession.TransportError(message), FrameConfigDecode(), zone)
    {
      status := 500;
    }
  }

  // ----- Properties -----

  /** Handling a list of events that ends in `e` is handling the rest and then `e`, while the response is open. */
  lemma HandleAllSnoc(events: seq<Event>, e: Event, decode: Decoder, zone: int)
    ensures var h := HandleAll(events, decode, zone);
      HandleAll(events + [e], decode, zone) == if h.reply.Open? then Handle(h, e, decode, zone) else h
  {
    assert (events + [e])[..|events|] == events;
  }

  /** Once the response is sent, or the process has stopped, no later event changes anything. */
  lemma {:induction false} RepliedIsFinal(events: seq<Event>, later: seq<Event>, decode: Decoder, zone: int)
    requires !HandleAll(events, decode, zone).reply.Open?
    ensures HandleAll(events + later, decode, zone) == HandleAll(events, decode, zone)
    decreases |later|
  {
    if later != [] {
      var front, last := later[..|later| - 1], later[|later| - 1];
      RepliedIsFinal(events, front, decode, zone);
      assert events + later == (events + front) + [last];
      HandleAllSnoc(events + front, last, decode, zone);
      assert !HandleAll(events + front, decode, zone).reply.Open?;
    } else {
      assert events + later == events;
    }
  }

  /**
   * A chunk that is not exactly 74 octets stops the request with the length
   * error, even when it holds whole frames or part of one.
   */
  lemma MisalignedChunkCrashes(events: seq<Event>, chunk: seq<byte>, zone: int)
    requires HandleAll(events, FrameConfigDecode(), zone).reply.Open? && |chunk| != 74
    ensures HandleAll(events + [StreamSession.Chunk(chunk)], FrameConfigDecode(), zone).reply
      == Crashed(HandleAll(events, FrameConfigDecode(), zone).status, FrameSizeMismatch(74, |chunk|))
  {
    HandleAllSnoc(events, StreamSession.Chunk(chunk), FrameConfigDecode(), zone);
  }

  /** The chunk events of some parts end with the last part's event. */
  lemma ChunksSnoc(parts: seq<seq<byte>>)
    requires parts != []
    ensures StreamSession.Chunks(parts)
      == StreamSession.Chunks(parts[..|parts| - 1]) + [StreamSession.Chunk(parts[|parts| - 1])]
  {
  }

  /** Chunks that each decode are folded in arrival order; the response stays open with status 200. */
  lemma {:induction false} DecodedChunksFold(chunks: seq<seq<byte>>, txs: seq<Transaction>, decode: Decoder, zone: int)
    requires |chunks| == |txs|
    requires forall i :: 0 <= i < |chunks| ==> decode(chunks[i]) == Success(txs[i])
    ensures HandleAll(StreamSession.Chunks(chunks), decode, zone) == Handler(200, txs, Open)
    decreases |chunks|
  {
    if chunks != [] {
      var n := |chunks|;
      var front, last := chunks[..n - 1], chunks[n - 1];
      DecodedChunksFold(front, txs[..n - 1], decode, zone);
      ChunksSnoc(chunks);
      HandleAllSnoc(StreamSession.Chunks(front), StreamSession.Chunk(last), decode, zone);
      assert decode(last) == Success(txs[n - 1]);
      assert txs[..n - 1] + [txs[n - 1]] == txs;
    }
  }

  /**
   * When every chunk is one frame that decodes, `end` sends status 200 and the
   * fold of the transactions in arrival order. The second clause feeds `error`
   * and then `end` to the two listeners: the status becomes 500 and the
   * aggregate is still sent. Node destroys a request stream that emits `error`
   * and does not emit `end` after it, so this clause shows what the listeners
   * do under that order, not an order Node produces.
   */
  lemma AlignedStreamSends(frames: seq<seq<byte>>, txs: seq<Transaction>, message: string, zone: int)
    requires |frames| == |txs|
    requires forall i :: 0 <= i < |frames| ==> Decode(frames[i], DefaultLayout) == Success(txs[i])
    ensures HandleAll(StreamSession.Chunks(frames) + [StreamSession.End], FrameConfigDecode(), zone).reply
      == Sent(200, FoldAll(Empty, txs, zone))
    ensures HandleAll(StreamSession.Chunks(frames) + [StreamSession.TransportError(message), StreamSession.End], FrameConfigDecode(), zone).reply
      == Sent(500, FoldAll(Empty, txs, zone))
  {
    var decode := FrameConfigDecode();
    var chunks := StreamSession.Chunks(frames);
    DecodedChunksFold(frames, txs, decode, zone);
    HandleAllSnoc(chunks, StreamSession.End, decode, zone);
    var failed := chunks + [StreamSession.TransportError(message)];
    HandleAllSnoc(chunks, StreamSession.TransportError(message), decode, zone);
    assert chunks + [StreamSession.TransportError(message), StreamSession.End] == failed + [StreamSession.End];
    HandleAllSnoc(failed, StreamSession.End, decode, zone);
  }

  /**
   * Two frames that arrive in one 148-octet chunk stop this handler with a
   * length error, while the frame-by-frame reader of `CalculateStatistics`
   * folds both and resolves with them.
   */
  lemma TwoFramesInOneChunk(tx1: Transaction, tx2: Transaction, zone: int)
    requires IsEncodable(tx1) && IsEncodable(tx2)
    ensures var chunk := EncodeFrame(tx1) + EncodeFrame(tx2);
      && HandleAll([StreamSession.Chunk(chunk), StreamSession.End], FrameConfigDecode(), zone).reply
         == Crashed(200, FrameSizeMismatch(74, 148))
      && StreamSession.Run([StreamSession.Chunk(chunk), StreamSession.End], StreamSession.ReaderFor(DefaultLayout), zone).settlement
         == StreamSession.Resolved(FoldAll(Empty, [tx1, tx2], zone))
  {
    var f1, f2 := EncodeFrame(tx1), EncodeFrame(tx2);
    TwoFramesCrash(f1 + f2, zone);
    DecodeEncodeFrame(tx1);
    DecodeEncodeFrame(tx2);
    TwoFramesResolve(f1, f2, tx1, tx2, zone);
  }

  /** The reader's side of TwoFramesInOneChunk: both frames of the chunk are read, decoded and folded. */
  lemma TwoFramesResolve(f1: seq<byte>, f2: seq<byte>, tx1: Transaction, tx2: Transaction, zone: int)
    requires Decode(f1, DefaultLayout) == Success(tx1) && Decode(f2, DefaultLayout) == Success(tx2)
    ensures StreamSession.Run([StreamSession.Chunk(f1 + f2), StreamSession.End], StreamSession.ReaderFor(DefaultLayout), zone).settlement
      == StreamSession.Resolved(FoldAll(Empty, [tx1, tx2], zone))
  {
    var chunk := f1 + f2;
    OneChunkTwoFrames(f1, f2);
    StreamSession.CleanStreamResolves([chunk], [f1, f2], [tx1, tx2], DefaultLayout, zone);
  }

  /** One chunk holding two frames carries the same octets as the two frames, as one chunk event. */
  lemma OneChunkTwoFrames(f1: seq<byte>, f2: seq<byte>)
    ensures StreamSession.Flatten([f1 + f2]) == StreamSession.Flatten([f1, f2])
    ensures StreamSession.Chunks([f1 + f2]) + [StreamSession.End] == [StreamSession.Chunk(f1 + f2), StreamSession.End]
  {
    assert StreamSession.Flatten([f2]) == f2 by {
      assert StreamSession.Flatten([f2][1..]) == StreamSession.Flatten([]);
    }
    assert [f1, f2][1..] == [f2];
    assert [f1 + f2][1..] == [];
  }

  /** The handler's side of TwoFramesInOneChunk: a 148-octet first chunk stops it, and `end` changes nothing. */
  lemma TwoFramesCrash(chunk: seq<byte>, zone: int)
    requires |chunk| == 148
    ensures HandleAll([StreamSession.Chunk(chunk), StreamSession.End], FrameConfigDecode(), zone).reply
      == Crashed(200, FrameSizeMismatch(74, 148))
  {
    var decode := FrameConfigDecode();
    MisalignedChunkCrashes([], chunk, zone);
    assert [] + [StreamSession.Chunk(chunk)] == [StreamSession.Chunk(chunk)];
    RepliedIsFinal([StreamSession.Chunk(chunk)], [StreamSession.End], decode, zone);
    assert [StreamSession.Chunk(chunk)] + [StreamSession.End] == [StreamSession.Chunk(chunk), StreamSession.End];
  }
}
