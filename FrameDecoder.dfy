/**
 * The fixed-layout frame decoder `decodeFrame` (server/CalculateStatistics.ts,
 * repeated verbatim in server/server.ts): one frame-sized block of octets
 * becomes one transaction, or the decoder throws.
 */
module FrameDecoder {
  import opened Wrappers
  import opened Bytes

  /** Widths the decoder reads, fixed in the code whatever the configured sizes say. */
  const NameWidth: nat := 32
  const AmountWidth: nat := 4
  const TimestampWidth: nat := 6

  /** The part of the configuration the decoder uses: the frame size and the four offsets. */
  datatype Layout = Layout(frameSize: int, sender: int, receiver: int, amount: int, timestamp: int)

  /** The built-in layout `frameConfig` of server/server.ts (and of server/config.ts). */
  const DefaultLayout := Layout(74, 0, 32, 64, 68)

  /**
   * In the built-in layout the four fields the decoder reads lie back to back
   * in declaration order and fill the frame exactly, so every read of a frame
   * of the right size stays inside it.
   */
  lemma DefaultLayoutTilesFrame()
    ensures DefaultLayout.sender == 0
    ensures DefaultLayout.receiver == DefaultLayout.sender + NameWidth
    ensures DefaultLayout.amount == DefaultLayout.receiver + NameWidth
    ensures DefaultLayout.timestamp == DefaultLayout.amount + AmountWidth
    ensures DefaultLayout.frameSize == DefaultLayout.timestamp + TimestampWidth
  {
  }

  /** A customer name: the octets of the name field after trimming. */
  type Name = seq<byte>

  /** A decoded record (`ITransaction`). */
  datatype Transaction = Transaction(time: int, amount: int, sender: Name, receiver: Name)

  /** Why decoding threw. */
  datatype DecodeError =
    | FrameSizeMismatch(expected: int, actual: nat) // "frame size is incorrect: expected E, but got A"
    | OffsetProblem(offset: int, width: nat)        // "offset problem!" wrapping the range error of a read

  /** The octets that `String.prototype.trimRight` removes: ASCII tab, line feed, vertical tab, form feed, carriage return and space. */
  predicate IsWhitespace(b: byte) {
    b == 9 || b == 10 || b == 11 || b == 12 || b == 13 || b == 32
  }

  /** The octet that `trimNullRight` removes. */
  predicate IsNul(b: byte) {
    b == 0
  }

  /** `s` without its trailing run of octets satisfying `strip`. */
  function TrimRight(s: seq<byte>, strip: byte -> bool): (r: seq<byte>)
    ensures r <= s
    ensures r == [] || !strip(r[|r| - 1])
    ensures forall i :: |r| <= i < |s| ==> strip(s[i])
    ensures s == [] || !strip(s[|s| - 1]) ==> r == s
  {
    if s != [] && strip(s[|s| - 1]) then TrimRight(s[..|s| - 1], strip) else s
  }

  /**
   * `trimNullRight`: the loop drops one trailing NUL at a time for as long as the
   * text ends in one.
   */
  method TrimNullRight(str: seq<byte>) returns (r: seq<byte>)
    ensures r == TrimRight(str, IsNul)
  {
    r := str;
    while |r| > 0 && r[|r| - 1] == 0
      invariant TrimRight(r, IsNul) == TrimRight(str, IsNul)
      decreases |r|
    {
      r := r[..|r| - 1];
    }
  }

  /**
   * `Buffer.toString("utf8", start, end)` at the octet level: the start is raised
   * to 0, the end lowered to the buffer length, and an empty range gives nothing;
   * it never throws.
   */
  function TextSlice(block: seq<byte>, start: int, end: int): (r: seq<byte>)
    ensures 0 <= start <= end <= |block| ==> r == block[start..end]
    ensures var s, e := (if start <= 0 then 0 else start), (if end > |block| then |block| else end);
      (s < e ==> r == block[s..e]) && (e <= s ==> r == [])
    ensures |r| <= |block| && (start < end ==> |r| <= end - start) && (end <= start ==> r == [])
  {
    var s := if start <= 0 then 0 else start;
    var e := if end > |block| then |block| else end;
    if s >= |block| || e <= s then [] else block[s..e]
  }

  /** A name field: 32 octets from `offset`, trailing whitespace trimmed first, then trailing NULs. */
  function NameAt(block: seq<byte>, offset: int): (name: Name)
    ensures |name| <= NameWidth
    ensures name == [] || name[|name| - 1] != 0
  {
    TrimRight(TrimRight(TextSlice(block, offset, offset + NameWidth as int), IsWhitespace), IsNul)
  }

  /** `readIntBE(offset, width)`: the signed big-endian value there, or a range error when the octets are not all inside the block. */
  function ReadIntBE(block: seq<byte>, offset: int, width: nat): (r: Result<int, DecodeError>)
    requires width > 0
    ensures r.Success? <==> 0 <= offset && offset + width <= |block|
    ensures r.Success? ==> -HalfRange(width) <= r.value < HalfRange(width)
    ensures r.Failure? ==> r.error == OffsetProblem(offset, width)
  {
    if 0 <= offset && offset + width <= |block| then Success(SignedBE(block[offset..offset + width]))
    else Failure(OffsetProblem(offset, width))
  }

  /** What `decodeFrame(block, config)` returns or throws. */
  function Decode(block: seq<byte>, layout: Layout): (r: Result<Transaction, DecodeError>)
    ensures |block| != layout.frameSize ==> r == Failure(FrameSizeMismatch(layout.frameSize, |block|))
    ensures r.Success? ==> -0x8000_0000 <= r.value.amount < 0x8000_0000
    ensures r.Success? ==> -0x8000_0000_0000 <= r.value.time < 0x8000_0000_0000
  {
    assert HalfRange(AmountWidth) == 0x8000_0000;
    assert HalfRange(TimestampWidth) == 0x8000_0000_0000;
    if |block| != layout.frameSize then Failure(FrameSizeMismatch(layout.frameSize, |block|))
    else
      var sender := NameAt(block, layout.sender);
      var receiver := NameAt(block, layout.receiver);
      match ReadIntBE(block, layout.amount, AmountWidth)
      case Failure(e) => Failure(e)
      case Success(amount) =>
        match ReadIntBE(block, layout.timestamp, TimestampWidth)
        case Failure(e) => Failure(e)
        case Success(time) => Success(Transaction(time, amount, sender, receiver))
  }

  /** One name field as the code reads it: the slice as text, `trimRight`, then `trimNullRight`. */
  method ReadName(block: seq<byte>, offset: int) returns (name: Name)
    ensures name == NameAt(block, offset)
  {
    name := TrimNullRight(TrimRight(TextSlice(block, offset, offset + NameWidth as int), IsWhitespace));
  }

  /** `decodeFrame`, step by step as the code does it. */
  method DecodeFrame(block: seq<byte>, layout: Layout) returns (r: Result<Transaction, DecodeError>)
    ensures r == Decode(block, layout)
  {
    if |block| != layout.frameSize {
      return Failure(FrameSizeMismatch(layout.frameSize, |block|));
    }
    var sender := ReadName(block, layout.sender);
    var receiver := ReadName(block, layout.receiver);
    var amount := ReadIntBE(block, layout.amount, AmountWidth);
    if amount.Failure? {
      return Failure(amount.error);
    }
    var time := ReadIntBE(block, layout.timestamp, TimestampWidth);
    if time.Failure? {
      return Failure(time.error);
    }
    r := Success(Transaction(time.value, amount.value, sender, receiver));
  }

  /**
   * Length guard and field reads: a block of the frame size decodes exactly when
   * the amount and timestamp ranges lie inside it (the name slices never fail),
   * and then the fields are the trimmed names and the signed big-endian values of
   * `[amount, +4)` and `[timestamp, +6)`. Otherwise the first failing read, in the
   * order amount then timestamp, is reported as an offset problem.
   */
  lemma DecodeCases(block: seq<byte>, layout: Layout)
    requires |block| == layout.frameSize
    ensures Decode(block, layout).Success? <==>
      0 <= layout.amount && layout.amount + 4 <= |block| && 0 <= layout.timestamp && layout.timestamp + 6 <= |block|
    ensures Decode(block, layout).Success? ==> Decode(block, layout).value == Transaction(
      SignedBE(block[layout.timestamp..layout.timestamp + 6]),
      SignedBE(block[layout.amount..layout.amount + 4]),
      NameAt(block, layout.sender),
      NameAt(block, layout.receiver))
    ensures !(0 <= layout.amount && layout.amount + 4 <= |block|) ==>
      Decode(block, layout) == Failure(OffsetProblem(layout.amount, 4))
    ensures 0 <= layout.amount && layout.amount + 4 <= |block| && !(0 <= layout.timestamp && layout.timestamp + 6 <= |block|) ==>
      Decode(block, layout) == Failure(OffsetProblem(layout.timestamp, 6))
  {
  }

  /** A name with no trailing whitespace or NUL, short enough for its 32-octet field. */
  predicate IsCleanName(name: Name) {
    |name| <= NameWidth && (name == [] || (!IsWhitespace(name[|name| - 1]) && !IsNul(name[|name| - 1])))
  }

  /** A transaction that the default wire format can carry. */
  predicate IsEncodable(tx: Transaction) {
    && IsCleanName(tx.sender) && IsCleanName(tx.receiver)
    && -0x8000_0000 <= tx.amount < 0x8000_0000
    && -0x8000_0000_0000 <= tx.time < 0x8000_0000_0000
  }

  /** A name NUL-padded to its 32-octet field. */
  function Pad(name: Name): (field: seq<byte>)
    requires |name| <= NameWidth
    ensures |field| == NameWidth && field[..|name|] == name
    ensures forall i :: |name| <= i < NameWidth ==> field[i] == 0
  {
    name + seq(NameWidth - |name|, _ => 0 as byte)
  }

  /** The 74-octet frame of the default layout that carries `tx`. */
  function EncodeFrame(tx: Transaction): (block: seq<byte>)
    requires IsEncodable(tx)
    ensures |block| == DefaultLayout.frameSize
  {
    assert HalfRange(AmountWidth) == 0x8000_0000;
    assert HalfRange(TimestampWidth) == 0x8000_0000_0000;
    Pad(tx.sender) + Pad(tx.receiver) + EncodeSignedBE(tx.amount, AmountWidth) + EncodeSignedBE(tx.time, TimestampWidth)
  }

  /** Trimming a padded clean name gives the name back. */
  lemma PaddedNameTrims(name: Name)
    requires IsCleanName(name)
    ensures TrimRight(TrimRight(Pad(name), IsWhitespace), IsNul) == name
  {
    var padded := Pad(name);
    var spaced := TrimRight(padded, IsWhitespace);
    assert spaced == padded;
    var r := TrimRight(padded, IsNul);
    if name != [] {
      assert !IsNul(padded[|name| - 1]);
    }
    assert |r| == |name|;
    assert r == padded[..|name|];
  }

  /** Decoding an encoded frame under the default layout gives the transaction back. */
  lemma DecodeEncodeFrame(tx: Transaction)
    requires IsEncodable(tx)
    ensures Decode(EncodeFrame(tx), DefaultLayout) == Success(tx)
  {
    assert HalfRange(AmountWidth) == 0x8000_0000;
    assert HalfRange(TimestampWidth) == 0x8000_0000_0000;
    var block := EncodeFrame(tx);
    assert block[0..32] == Pad(tx.sender);
    assert block[32..64] == Pad(tx.receiver);
    assert block[64..68] == EncodeSignedBE(tx.amount, AmountWidth);
    assert block[68..74] == EncodeSignedBE(tx.time, TimestampWidth);
    PaddedNameTrims(tx.sender);
    PaddedNameTrims(tx.receiver);
    SignedRoundTrip(tx.amount, AmountWidth);
    SignedRoundTrip(tx.time, TimestampWidth);
  }

  /**
   * Trim order: whitespace is trimmed before NULs, so in a field holding "ab "
   * followed by NULs the space survives; trimming NULs first would have lost it.
   */
  lemma WhitespaceBeforeNulPadding()
    ensures var field := [97, 98, 32] + seq(29, _ => 0 as byte);
      && NameAt(field, 0) == [97, 98, 32]
      && TrimRight(TrimRight(field, IsNul), IsWhitespace) == [97, 98]
  {
    var field: seq<byte> := [97, 98, 32] + seq(29, _ => 0 as byte);
    assert TextSlice(field, 0, 32) == field;
    var nul := TrimRight(field, IsNul);
    assert !IsNul(field[2]);
    assert |nul| == 3;
    assert nul == [97, 98, 32];
    var both := TrimRight(nul, IsWhitespace);
    assert IsWhitespace(nul[2]);
    assert TrimRight(nul[..2], IsWhitespace) == [97, 98];
  }
}
