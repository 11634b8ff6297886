/**
 * The configuration loader of server/loadConfig.ts: the default configuration is
 * overlaid with the environment's (`Object.assign`), and `validateConfig` then
 * throws on the first rule the result breaks.
 *
 * JSON numbers are modelled as reals. `None` stands for `undefined` where a
 * value is read from an object, and for `NaN` in the running scan, where
 * `undefined + x` gives `NaN`; both make every `<` and `>` false.
 */
module LayoutConfig {
  import opened Wrappers
  import FrameDecoder

  /** One property of a JSON object with numeric values (`None`: the value `undefined`). */
  datatype Entry = Entry(key: string, value: Option<real>)

  /** An object such as `dataSize` or `offset`: its properties in `for...in` order. */
  type Fields = seq<Entry>

  /** The configuration object: the keys the loader and the validator use (`None`: key absent). */
  datatype Config = Config(
    serverPort: Option<real>,
    serverHostname: Option<string>,
    frameSize: Option<real>,
    dataSize: Option<Fields>,
    offset: Option<Fields>)

  /** Why `validateConfig` threw, one constructor per message. */
  datatype ConfigError =
    | FrameSizeMissing            // "frameSize object must be specified"
    | FrameSizeInvalid            // "frameSize must be positive integer"
    | DataSizeMissing             // "dataSize object must be specified"
    | OffsetMissing               // "offset object must be specified"
    | SizeUndefined(field: string)
    | SizeNegative(field: string)
    | OffsetUndefined(field: string)
    | OffsetNotInteger(field: string)
    | OffsetNegative(field: string)
    | OffsetOverlapping(field: string)
    | FrameSizeIncorrect          // "Frame size incorrect"

  /** The keys of `f`, in iteration order. */
  function Keys(f: Fields): (keys: seq<string>)
    ensures |keys| == |f|
    ensures forall i :: 0 <= i < |f| ==> keys[i] == f[i].key
  {
    seq(|f|, i requires 0 <= i < |f| => f[i].key)
  }

  /** `object[key]`: the value of the property named `key`, or `undefined` when there is none. */
  function Get(f: Fields, key: string): Option<real>
  {
    if f == [] then None else if f[0].key == key then f[0].value else Get(f[1..], key)
  }

  /** `Number.isInteger(x)` for a finite number. */
  predicate IsInteger(x: real) {
    x.Floor as real == x
  }

  /** `a < b` where either side may be `NaN`. */
  predicate Below(a: Option<real>, b: Option<real>) {
    a.Some? && b.Some? && a.value < b.value
  }

  /** `a + b`: `NaN` when either side is `undefined` or `NaN`. */
  function Plus(a: Option<real>, b: Option<real>): (r: Option<real>)
    ensures r.Some? <==> a.Some? && b.Some?
    ensures r.Some? ==> r.value == a.value + b.value
  {
    if a.Some? && b.Some? then Some(a.value + b.value) else None
  }


  // ----- validateConfig -----

  /** The body of the first loop for one field, its checks in the order written. */
  function CheckField(dataSize: Fields, offset: Fields, field: string): (r: Outcome<ConfigError>)
    ensures r.Pass? <==>
      Get(dataSize, field).Some? && Get(dataSize, field).value >= 0.0 &&
      Get(offset, field).Some? && IsInteger(Get(offset, field).value) && Get(offset, field).value >= 0.0
  {
    var size := Get(dataSize, field);
    var at := Get(offset, field);
    if size.None? then Fail(SizeUndefined(field))
    else if size.value < 0.0 then Fail(SizeNegative(field))
    else if at.None? then Fail(OffsetUndefined(field))
    else if !IsInteger(at.value) then Fail(OffsetNotInteger(field))
    else if at.value < 0.0 then Fail(OffsetNegative(field))
    else Pass
  }

  /** The first loop over `fields`: the failure of the first field that fails, if any. */
  function CheckFields(dataSize: Fields, offset: Fields, fields: seq<string>): (r: Outcome<ConfigError>)
    ensures r.Pass? <==> forall i :: 0 <= i < |fields| ==> CheckField(dataSize, offset, fields[i]).Pass?
    decreases |fields|
  {
    if fields == [] then Pass
    else
      var front := fields[..|fields| - 1];
      match CheckFields(dataSize, offset, front)
      case Fail(e) => Fail(e)
      case Pass => CheckField(dataSize, offset, fields[|fields| - 1])
  }

  /** One field as the overlap scan sees it: its name, `offset[field]` and `dataSize[field]`. */
  datatype Span = Span(field: string, start: Option<real>, size: Option<real>)

  /** The spans of `fields`, in order. */
  function Spans(dataSize: Fields, offset: Fields, fields: seq<string>): (spans: seq<Span>)
    ensures |spans| == |fields|
    ensures forall i :: 0 <= i < |fields| ==> spans[i] == Span(fields[i], Get(offset, fields[i]), Get(dataSize, fields[i]))
  {
    seq(|fields|, i requires 0 <= i < |fields| => Span(fields[i], Get(offset, fields[i]), Get(dataSize, fields[i])))
  }

  /** The spans the scan visits: one per key of `offset`, in `for...in` order. */
  function Ranges(c: Config): seq<Span>
    requires c.dataSize.Some? && c.offset.Some?
  {
    Spans(c.dataSize.value, c.offset.value, Keys(c.offset.value))
  }

  /**
   * The overlap scan: each offset must not be below `prevOffset`, which starts
   * at 0 and then becomes offset plus size. The result is the final
   * `prevOffset`, or the first overlap.
   */
  function Scan(spans: seq<Span>): (r: Result<Option<real>, ConfigError>)
    ensures r.Failure? ==> r.error.OffsetOverlapping?
    decreases |spans|
  {
    if spans == [] then Success(Some(0.0))
    else
      match Scan(spans[..|spans| - 1])
      case Failure(e) => Failure(e)
      case Success(prev) =>
        var span := spans[|spans| - 1];
        if Below(span.start, prev) then Failure(OffsetOverlapping(span.field))
        else Success(Plus(span.start, span.size))
  }

  /** Whether the frame size passes its two checks. */
  predicate FrameSizeValid(frameSize: Option<real>) {
    frameSize.Some? && IsInteger(frameSize.value) && frameSize.value >= 0.0
  }

  /** Whether the configuration passes every check before the scan. */
  predicate FieldsChecked(c: Config) {
    FrameSizeValid(c.frameSize) && c.dataSize.Some? && c.offset.Some? &&
    CheckFields(c.dataSize.value, c.offset.value, Keys(c.dataSize.value)).Pass?
  }

  /** What `validateConfig(configuration)` does: return (`Pass`) or throw the first broken rule. */
  function Validate(c: Config): (r: Outcome<ConfigError>)
    ensures r == Pass ==> FieldsChecked(c)
    ensures c.frameSize.None? ==> r == Fail(FrameSizeMissing)
    ensures c.frameSize.Some? && !FrameSizeValid(c.frameSize) ==> r == Fail(FrameSizeInvalid)
    ensures FieldsChecked(c) && r.Fail? ==> r.error.OffsetOverlapping? || r.error == FrameSizeIncorrect
  {
    if c.frameSize.None? then Fail(FrameSizeMissing)
    else if !IsInteger(c.frameSize.value) || c.frameSize.value < 0.0 then Fail(FrameSizeInvalid)
    else if c.dataSize.None? then Fail(DataSizeMissing)
    else if c.offset.None? then Fail(OffsetMissing)
    else
      match CheckFields(c.dataSize.value, c.offset.value, Keys(c.dataSize.value))
      case Fail(e) => Fail(e)
      case Pass =>
        match Scan(Ranges(c))
        case Failure(e) => Fail(e)
        case Success(last) => if Below(c.frameSize, last) then Fail(FrameSizeIncorrect) else Pass
  }

  /** `validateConfig`, loop by loop as the code runs it. */
  method ValidateConfig(configuration: Config) returns (r: Outcome<ConfigError>)
    ensures r == Validate(configuration)
  {
    if configuration.frameSize.None? {
      return Fail(FrameSizeMissing);
    }
    var frameSize := configuration.frameSize.value;
    if !IsInteger(frameSize) || frameSize < 0.0 {
      return Fail(FrameSizeInvalid);
    }
    if configuration.dataSize.None? {
      return Fail(DataSizeMissing);
    }
    if configuration.offset.None? {
      return Fail(OffsetMissing);
    }
    var dataSize, offset := configuration.dataSize.value, configuration.offset.value;
    ghost var sizeKeys := Keys(dataSize);
    for i := 0 to |dataSize|
      invariant CheckFields(dataSize, offset, sizeKeys[..i]) == Pass
    {
      var field := dataSize[i].key;
      assert sizeKeys[..i + 1][..i] == sizeKeys[..i];
      var check := CheckField(dataSize, offset, field);
      if check.Fail? {
        CheckFieldsPrefix(dataSize, offset, sizeKeys, i + 1);
        assert sizeKeys[..|dataSize|] == sizeKeys;
        return check;
      }
    }
    assert sizeKeys[..|dataSize|] == sizeKeys;
    ghost var spans := Ranges(configuration);
    var prevOffset: Option<real> := Some(0.0);
    for i := 0 to |offset|
      invariant Scan(spans[..i]) == Success(prevOffset)
    {
      var field := offset[i].key;
      assert spans[..i + 1][..i] == spans[..i];
      var currentOffset := Get(offset, field);
      if Below(currentOffset, prevOffset) {
        ScanPrefix(spans, i + 1);
        assert spans[..|offset|] == spans;
        return Fail(OffsetOverlapping(field));
      }
      prevOffset := Plus(currentOffset, Get(dataSize, field));
    }
    assert spans[..|offset|] == spans;
    if Below(Some(frameSize), prevOffset) {
      return Fail(FrameSizeIncorrect);
    }
    return Pass;
  }

  /** Once a prefix of the fields fails the first loop, the loop as a whole fails the same way. */
  lemma {:induction false} CheckFieldsPrefix(dataSize: Fields, offset: Fields, fields: seq<string>, k: nat)
    requires k <= |fields| && CheckFields(dataSize, offset, fields[..k]).Fail?
    ensures CheckFields(dataSize, offset, fields) == CheckFields(dataSize, offset, fields[..k])
    decreases |fields|
  {
    if k < |fields| {
      var front := fields[..|fields| - 1];
      assert front[..k] == fields[..k];
      CheckFieldsPrefix(dataSize, offset, front, k);
    } else {
      assert fields[..k] == fields;
    }
  }

  /** A failing first loop reports the check of the first field that fails. */
  lemma {:induction false} CheckFieldsFirstFailure(dataSize: Fields, offset: Fields, fields: seq<string>)
    requires CheckFields(dataSize, offset, fields).Fail?
    ensures exists i :: (0 <= i < |fields| &&
      CheckField(dataSize, offset, fields[i]) == CheckFields(dataSize, offset, fields) &&
      forall j :: 0 <= j < i ==> CheckField(dataSize, offset, fields[j]).Pass?)
    decreases |fields|
  {
    var n := |fields|;
    var front := fields[..n - 1];
    if CheckFields(dataSize, offset, front).Fail? {
      CheckFieldsFirstFailure(dataSize, offset, front);
      var i :| 0 <= i < |front| &&
        CheckField(dataSize, offset, front[i]) == CheckFields(dataSize, offset, front) &&
        forall j :: 0 <= j < i ==> CheckField(dataSize, offset, front[j]).Pass?;
      assert front[i] == fields[i];
      forall j | 0 <= j < i
        ensures CheckField(dataSize, offset, fields[j]).Pass?
      {
        assert front[j] == fields[j];
      }
    } else {
      forall j | 0 <= j < n - 1
        ensures CheckField(dataSize, offset, fields[j]).Pass?
      {
        assert front[j] == fields[j];
      }
    }
  }

  /** Once the scan over a prefix finds an overlap, the scan as a whole reports it. */
  lemma {:induction false} ScanPrefix(spans: seq<Span>, k: nat)
    requires k <= |spans| && Scan(spans[..k]).Failure?
    ensures Scan(spans) == Scan(spans[..k])
    decreases |spans|
  {
    if k < |spans| {
      var front := spans[..|spans| - 1];
      assert front[..k] == spans[..k];
      ScanPrefix(front, k);
    } else {
      assert spans[..k] == spans;
    }
  }

  /**
   * An overlap is reported for the first field whose offset lies below the
   * running end of the fields before it, and every field before it passed.
   */
  lemma {:induction false} ScanFirstOverlap(spans: seq<Span>)
    requires Scan(spans).Failure?
    ensures exists i :: (0 <= i < |spans| && Scan(spans[..i]).Success? &&
      Below(spans[i].start, Scan(spans[..i]).value) && Scan(spans).error == OffsetOverlapping(spans[i].field))
    decreases |spans|
  {
    var front := spans[..|spans| - 1];
    if Scan(front).Failure? {
      ScanFirstOverlap(front);
      var i :| 0 <= i < |front| && Scan(front[..i]).Success? &&
        Below(front[i].start, Scan(front[..i]).value) && Scan(front).error == OffsetOverlapping(front[i].field);
      assert front[..i] == spans[..i];
    } else {
      assert spans[..|spans| - 1] == front;
    }
  }

  // ----- What an accepted layout looks like -----

  /** Every span has a defined offset and a defined size. */
  predicate Sized(spans: seq<Span>) {
    forall i :: 0 <= i < |spans| ==> spans[i].start.Some? && spans[i].size.Some?
  }

  /** Where a sized span starts. */
  function Start(span: Span): real
    requires span.start.Some?
  {
    span.start.value
  }

  /** Where a sized span ends: its offset plus its size. */
  function End(span: Span): real
    requires span.start.Some? && span.size.Some?
  {
    span.start.value + span.size.value
  }

  /** Where span `i` may start at the earliest: the end of the span before it, or 0 for the first. */
  function Before(spans: seq<Span>, i: nat): real
    requires Sized(spans) && i <= |spans|
  {
    if i == 0 then 0.0 else End(spans[i - 1])
  }

  /** Each span starts at or after the end of the one before it, and the first at or after 0. */
  predicate Ascending(spans: seq<Span>)
    requires Sized(spans)
  {
    forall i :: 0 <= i < |spans| ==> Before(spans, i) <= Start(spans[i])
  }

  /** The end of the last span (0 when there is none): the final `prevOffset` of a clean scan. */
  function LastEnd(spans: seq<Span>): real
    requires Sized(spans)
  {
    Before(spans, |spans|)
  }

  /** On sized spans the scan passes exactly when they ascend, and ends at the last span's end. */
  lemma {:induction false} ScanSized(spans: seq<Span>)
    requires Sized(spans)
    ensures Scan(spans).Success? <==> Ascending(spans)
    ensures Scan(spans).Success? ==> Scan(spans).value == Some(LastEnd(spans))
    decreases |spans|
  {
    if spans != [] {
      AscendingSnoc(spans);
      ScanSized(spans[..|spans| - 1]);
    }
  }

  /** Ascending splits into the front ascending and the last span starting after the front's end. */
  lemma AscendingSnoc(spans: seq<Span>)
    requires Sized(spans) && spans != []
    ensures Sized(spans[..|spans| - 1])
    ensures Ascending(spans) <==>
      Ascending(spans[..|spans| - 1]) && LastEnd(spans[..|spans| - 1]) <= Start(spans[|spans| - 1])
  {
    var n := |spans|;
    var front := spans[..n - 1];
    assert Sized(front) by {
      forall i | 0 <= i < |front|
        ensures front[i].start.Some? && front[i].size.Some?
      {
        assert front[i] == spans[i];
      }
    }
    forall i | 0 <= i < n
      ensures Before(front, i) == Before(spans, i)
    {
      if i > 0 {
        assert front[i - 1] == spans[i - 1];
      }
    }
    assert LastEnd(front) == Before(spans, n - 1);
    if Ascending(spans) {
      forall i | 0 <= i < |front|
        ensures Before(front, i) <= Start(front[i])
      {
        assert front[i] == spans[i];
      }
    }
    if Ascending(front) && LastEnd(front) <= Start(spans[n - 1]) {
      forall i | 0 <= i < n
        ensures Before(spans, i) <= Start(spans[i])
      {
        if i < n - 1 {
          assert front[i] == spans[i];
        }
      }
    }
  }

  /** Along ascending spans of non-negative size the earliest start never decreases. */
  lemma {:induction false} BeforeMonotone(spans: seq<Span>, i: nat, j: nat)
    requires Sized(spans) && Ascending(spans) && i <= j <= |spans|
    requires forall k :: 0 <= k < |spans| ==> spans[k].size.value >= 0.0
    ensures Before(spans, i) <= Before(spans, j)
    decreases j - i
  {
    if i < j {
      BeforeMonotone(spans, i, j - 1);
      assert Before(spans, j - 1) <= Start(spans[j - 1]) <= End(spans[j - 1]);
    }
  }

  /** Ascending spans of non-negative size are pairwise disjoint, in order, and all end by the last end. */
  lemma AscendingDisjoint(spans: seq<Span>)
    requires Sized(spans) && Ascending(spans)
    requires forall i :: 0 <= i < |spans| ==> spans[i].size.value >= 0.0
    ensures forall i, j :: 0 <= i < j < |spans| ==> End(spans[i]) <= Start(spans[j])
    ensures forall i :: 0 <= i < |spans| ==> 0.0 <= Start(spans[i]) <= End(spans[i]) <= LastEnd(spans)
  {
    forall i, j | 0 <= i < j < |spans|
      ensures End(spans[i]) <= Start(spans[j])
    {
      BeforeMonotone(spans, i + 1, j);
      assert Before(spans, j) <= Start(spans[j]);
    }
    forall i | 0 <= i < |spans|
      ensures 0.0 <= Start(spans[i]) <= End(spans[i]) <= LastEnd(spans)
    {
      BeforeMonotone(spans, 0, i);
      BeforeMonotone(spans, i + 1, |spans|);
      assert Before(spans, i) <= Start(spans[i]);
    }
  }

  /** A key some object gives a value to is one of its keys. */
  lemma {:induction false} GetKey(f: Fields, key: string)
    requires Get(f, key).Some?
    ensures exists i :: 0 <= i < |f| && Keys(f)[i] == key
  {
    if f[0].key == key {
      assert Keys(f)[0] == key;
    } else {
      GetKey(f[1..], key);
      var i :| 0 <= i < |f| - 1 && Keys(f[1..])[i] == key;
      assert Keys(f)[i + 1] == key;
    }
  }

  /** After the first loop, every field that has a size has a whole, non-negative offset and a non-negative size. */
  lemma CheckedSpan(c: Config, field: string)
    requires FieldsChecked(c) && Get(c.dataSize.value, field).Some?
    ensures Get(c.dataSize.value, field).value >= 0.0
    ensures Get(c.offset.value, field).Some? && IsInteger(Get(c.offset.value, field).value)
    ensures Get(c.offset.value, field).value >= 0.0
  {
    var dataSize := c.dataSize.value;
    GetKey(dataSize, field);
    var k :| 0 <= k < |dataSize| && Keys(dataSize)[k] == field;
    assert CheckField(dataSize, c.offset.value, Keys(dataSize)[k]).Pass?;
  }

  /**
   * When every key of `offset` has a size, the validator accepts exactly the
   * layouts whose fields, in the order `offset` lists them, ascend from 0 and
   * end within the frame; their ranges are then pairwise disjoint, start at
   * whole non-negative offsets and lie inside `[0, frameSize]`.
   */
  lemma AcceptedLayout(c: Config)
    requires c.dataSize.Some? && c.offset.Some? && Sized(Ranges(c))
    ensures Validate(c) == Pass <==>
      FieldsChecked(c) && Ascending(Ranges(c)) && LastEnd(Ranges(c)) <= c.frameSize.value
    ensures Validate(c) == Pass ==>
      var spans := Ranges(c);
      (forall i, j :: 0 <= i < j < |spans| ==> End(spans[i]) <= Start(spans[j])) &&
      (forall i :: 0 <= i < |spans| ==>
        IsInteger(Start(spans[i])) && 0.0 <= Start(spans[i]) <= End(spans[i]) <= c.frameSize.value)
  {
    var spans := Ranges(c);
    ScanSized(spans);
    if Validate(c) == Pass {
      forall i | 0 <= i < |spans|
        ensures spans[i].size.value >= 0.0 && IsInteger(Start(spans[i]))
      {
        CheckedSpan(c, spans[i].field);
      }
      AscendingDisjoint(spans);
    }
  }

  // ----- Example layouts -----

  /**
   * A configuration for the fixed decoder: frame 74, sizes 32, 32, 4 and 6 (the
   * widths `decodeFrame` reads), offsets 0, 32, 64 and 68 (server/config.ts).
   */
  function DecoderConfig(): Config
  {
    Config(Some(3000.0), None, Some(74.0),
      Some([Entry("sender", Some(32.0)), Entry("receiver", Some(32.0)),
            Entry("amount", Some(4.0)), Entry("timestamp", Some(6.0))]),
      Some([Entry("sender", Some(0.0)), Entry("receiver", Some(32.0)),
            Entry("amount", Some(64.0)), Entry("timestamp", Some(68.0))]))
  }

  /** The first loop passes when every entry of `dataSize` passes its checks. */
  lemma AllChecked(dataSize: Fields, offset: Fields)
    requires forall i :: 0 <= i < |dataSize| ==> CheckField(dataSize, offset, dataSize[i].key).Pass?
    ensures CheckFields(dataSize, offset, Keys(dataSize)) == Pass
  {
    forall i | 0 <= i < |dataSize|
      ensures CheckField(dataSize, offset, Keys(dataSize)[i]).Pass?
    {
      assert Keys(dataSize)[i] == dataSize[i].key;
    }
  }

  /** What the decoder configuration's objects hold under each field name. */
  lemma DecoderLookups()
    ensures var dataSize, offset := DecoderConfig().dataSize.value, DecoderConfig().offset.value;
      && Get(dataSize, "sender") == Some(32.0) && Get(offset, "sender") == Some(0.0)
      && Get(dataSize, "receiver") == Some(32.0) && Get(offset, "receiver") == Some(32.0)
      && Get(dataSize, "amount") == Some(4.0) && Get(offset, "amount") == Some(64.0)
      && Get(dataSize, "timestamp") == Some(6.0) && Get(offset, "timestamp") == Some(68.0)
  {
  }

  /** The decoder's four sizes pass the first loop against offsets 0, 32, 64 and 68, in any order. */
  lemma DecoderSizesChecked(offset: Fields)
    requires Get(offset, "sender") == Some(0.0) && Get(offset, "receiver") == Some(32.0)
    requires Get(offset, "amount") == Some(64.0) && Get(offset, "timestamp") == Some(68.0)
    ensures CheckFields(DecoderConfig().dataSize.value, offset, Keys(DecoderConfig().dataSize.value)) == Pass
  {
    var dataSize := DecoderConfig().dataSize.value;
    DecoderLookups();
    assert (32.0).Floor == 32 && (64.0).Floor == 64 && (68.0).Floor == 68;
    forall i | 0 <= i < |dataSize|
      ensures CheckField(dataSize, offset, dataSize[i].key).Pass?
    {
      // one case per entry, so that each lookup is evaluated at a literal index
      if i == 0 {} else if i == 1 {} else if i == 2 {} else {}
    }
    AllChecked(dataSize, offset);
  }

  /** The spans the scan visits in the decoder configuration. */
  lemma DecoderRanges()
    ensures Ranges(DecoderConfig()) == [
      Span("sender", Some(0.0), Some(32.0)), Span("receiver", Some(32.0), Some(32.0)),
      Span("amount", Some(64.0), Some(4.0)), Span("timestamp", Some(68.0), Some(6.0))]
  {
    DecoderLookups();
    var offset := DecoderConfig().offset.value;
    var keys := Keys(offset);
    assert keys[0] == "sender" && keys[1] == "receiver" && keys[2] == "amount" && keys[3] == "timestamp";
    var spans := Ranges(DecoderConfig());
    assert spans[0] == Span("sender", Some(0.0), Some(32.0));
    assert spans[1] == Span("receiver", Some(32.0), Some(32.0));
    assert spans[2] == Span("amount", Some(64.0), Some(4.0));
    assert spans[3] == Span("timestamp", Some(68.0), Some(6.0));
  }

  /** The decoder's layout passes validation: its fields ascend from 0 and end exactly at the 74-octet frame. */
  lemma DecoderConfigAccepted()
    ensures Validate(DecoderConfig()) == Pass
  {
    var c := DecoderConfig();
    DecoderLookups();
    DecoderSizesChecked(c.offset.value);
    DecoderRanges();
    var spans := Ranges(c);
    assert Sized(spans) by {
      forall i | 0 <= i < |spans|
        ensures spans[i].start.Some? && spans[i].size.Some?
      {
        // one case per entry, so that each lookup is evaluated at a literal index
        if i == 0 {} else if i == 1 {} else if i == 2 {} else {}
      }
    }
    forall i | 0 <= i < |spans|
      ensures Before(spans, i) <= Start(spans[i])
    {
      // one case per entry, so that each lookup is evaluated at a literal index
      if i == 0 {} else if i == 1 {} else if i == 2 {} else {}
    }
    assert LastEnd(spans) == 74.0;
    AcceptedLayout(c);
  }

  /** The decoder's offsets listed receiver first. */
  function ReceiverFirst(): Fields
  {
    [Entry("receiver", Some(32.0)), Entry("sender", Some(0.0)),
     Entry("amount", Some(64.0)), Entry("timestamp", Some(68.0))]
  }

  /** Listing a correctly sized layout out of positional order is rejected at the first field that goes back. */
  lemma OutOfOrderRejected()
    ensures Validate(DecoderConfig().(offset := Some(ReceiverFirst()))) == Fail(OffsetOverlapping("sender"))
  {
    var c := DecoderConfig().(offset := Some(ReceiverFirst()));
    var offset := ReceiverFirst();
    assert Get(offset, "receiver") == Some(32.0) && Get(offset, "sender") == Some(0.0);
    assert Get(offset, "amount") == Some(64.0) && Get(offset, "timestamp") == Some(68.0);
    DecoderSizesChecked(offset);
    DecoderLookups();
    var keys := Keys(offset);
    assert keys[0] == "receiver" && keys[1] == "sender";
    var spans := Ranges(c);
    assert spans[0] == Span("receiver", Some(32.0), Some(32.0));
    assert spans[1] == Span("sender", Some(0.0), Some(32.0));
    assert spans[..2][..1] == spans[..1];
    assert Scan(spans[..1]) == Success(Some(64.0));
    assert Scan(spans[..2]) == Failure(OffsetOverlapping("sender"));
    ScanPrefix(spans, 2);
  }

  /** A frame size of 0 passes although the message asks for a positive one; negative and fractional sizes fail. */
  lemma FrameSizeBoundary()
    ensures Validate(Config(None, None, Some(0.0), Some([]), Some([]))) == Pass
    ensures Validate(Config(None, None, Some(-1.0), Some([]), Some([]))) == Fail(FrameSizeInvalid)
    ensures Validate(Config(None, None, Some(0.5), Some([]), Some([]))) == Fail(FrameSizeInvalid)
  {
    assert Keys([]) == [];
    assert Spans([], [], []) == [];
    assert (0.5).Floor == 0;
  }

  // ----- A field listed in `offset` without a size -----

  /**
   * The evidently intended rule: after the first loop, every key of `offset`
   * must also have a size (and passes the same checks), so that every field
   * the scan visits is sized.
   */
  function ValidateStrict(c: Config): Outcome<ConfigError>
  {
    if FieldsChecked(c) then
      match CheckFields(c.dataSize.value, c.offset.value, Keys(c.offset.value))
      case Fail(e) => Fail(e)
      case Pass => Validate(c)
    else Validate(c)
  }

  /** The decoder's offsets with sizes for the two names and the amount only, and a 10-octet frame. */
  function NoTimestampSize(): Config
  {
    DecoderConfig().(frameSize := Some(10.0), dataSize := Some([
      Entry("sender", Some(32.0)), Entry("receiver", Some(32.0)), Entry("amount", Some(4.0))]))
  }

  /** What NoTimestampSize's objects hold under each field name. */
  lemma NoTimestampLookups()
    ensures var dataSize, offset := NoTimestampSize().dataSize.value, NoTimestampSize().offset.value;
      && Get(dataSize, "sender") == Some(32.0) && Get(offset, "sender") == Some(0.0)
      && Get(dataSize, "receiver") == Some(32.0) && Get(offset, "receiver") == Some(32.0)
      && Get(dataSize, "amount") == Some(4.0) && Get(offset, "amount") == Some(64.0)
      && Get(dataSize, "timestamp") == None && Get(offset, "timestamp") == Some(68.0)
  {
    DecoderLookups();
  }

  /** In NoTimestampSize the first loop passes, and the same loop over the keys of `offset` stops at the timestamp. */
  lemma NoTimestampSizeChecked()
    ensures FieldsChecked(NoTimestampSize())
    ensures var c := NoTimestampSize();
      CheckFields(c.dataSize.value, c.offset.value, Keys(c.offset.value)) == Fail(SizeUndefined("timestamp"))
  {
    var c := NoTimestampSize();
    var dataSize, offset := c.dataSize.value, c.offset.value;
    NoTimestampLookups();
    assert (32.0).Floor == 32 && (64.0).Floor == 64;
    forall i | 0 <= i < |dataSize|
      ensures CheckField(dataSize, offset, dataSize[i].key).Pass?
    {
      // one case per entry, so that each lookup is evaluated at a literal index
      if i == 0 {} else if i == 1 {} else {}
    }
    AllChecked(dataSize, offset);
    var keys := Keys(offset);
    assert keys[0] == "sender" && keys[1] == "receiver" && keys[2] == "amount" && keys[3] == "timestamp";
    assert CheckFields(dataSize, offset, keys[..3]) == Pass by {
      forall i | 0 <= i < 3
        ensures CheckField(dataSize, offset, keys[..3][i]).Pass?
      {
        // one case per entry, so that each lookup is evaluated at a literal index
        if i == 0 {} else if i == 1 {} else {}
      }
    }
    assert keys[..4] == keys;
  }

  /** In NoTimestampSize the scan runs clean to the timestamp and ends on `68 + undefined`, that is `NaN`. */
  lemma NoTimestampSizeScan()
    ensures Scan(Ranges(NoTimestampSize())) == Success(None)
  {
    var c := NoTimestampSize();
    var dataSize, offset := c.dataSize.value, c.offset.value;
    NoTimestampLookups();
    var keys := Keys(offset);
    assert keys[0] == "sender" && keys[1] == "receiver" && keys[2] == "amount" && keys[3] == "timestamp";
    var spans := Ranges(c);
    var front := spans[..3];
    assert front[0] == Span("sender", Some(0.0), Some(32.0));
    assert front[1] == Span("receiver", Some(32.0), Some(32.0));
    assert front[2] == Span("amount", Some(64.0), Some(4.0));
    assert spans[3] == Span("timestamp", Some(68.0), None);
    assert Sized(front) by {
      forall i | 0 <= i < 3
        ensures front[i].start.Some? && front[i].size.Some?
      {
        // one case per entry, so that each lookup is evaluated at a literal index
        if i == 0 {} else if i == 1 {} else {}
      }
    }
    assert Ascending(front) by {
      forall i | 0 <= i < 3
        ensures Before(front, i) <= Start(front[i])
      {
        // one case per entry, so that each lookup is evaluated at a literal index
        if i == 0 {} else if i == 1 {} else {}
      }
    }
    ScanSized(front);
    assert LastEnd(front) == 68.0;
    assert spans[..4] == spans;
  }

  /**
   * As written: when `timestamp` has an offset but no size, `prevOffset` becomes
   * `68 + undefined`, which is `NaN`, and the final frame-size check compares
   * false, so a 10-octet frame is accepted although the fields the decoder reads reach octet 74.
   * The corrected rule rejects it.
   */
  lemma MissingSizeSlipsThrough()
    ensures Validate(NoTimestampSize()) == Pass
    ensures ValidateStrict(NoTimestampSize()) == Fail(SizeUndefined("timestamp"))
  {
    NoTimestampSizeChecked();
    NoTimestampSizeScan();
  }

  /**
   * The corrected rule needs no assumption about the keys: what it accepts the
   * code accepts too, every field of `offset` is then sized, and so (by
   * AcceptedLayout) ascending, pairwise disjoint and inside the frame; and the
   * two rules agree whenever every key of `offset` has a size.
   */
  lemma StrictAcceptance(c: Config)
    ensures ValidateStrict(c) == Pass ==>
      Validate(c) == Pass && Sized(Ranges(c)) && Ascending(Ranges(c))
    ensures ValidateStrict(c) == Pass ==>
      var spans := Ranges(c);
      (forall i, j :: 0 <= i < j < |spans| ==> End(spans[i]) <= Start(spans[j])) &&
      (forall i :: 0 <= i < |spans| ==>
        IsInteger(Start(spans[i])) && 0.0 <= Start(spans[i]) <= End(spans[i]) <= c.frameSize.value)
    ensures c.dataSize.Some? && c.offset.Some? && Sized(Ranges(c)) ==> ValidateStrict(c) == Validate(c)
  {
    if FieldsChecked(c) {
      var dataSize, offset := c.dataSize.value, c.offset.value;
      var keys := Keys(offset);
      var spans := Ranges(c);
      if CheckFields(dataSize, offset, keys).Pass? {
        assert Sized(spans) by {
          forall i | 0 <= i < |spans|
            ensures spans[i].start.Some? && spans[i].size.Some?
          {
            assert CheckField(dataSize, offset, keys[i]).Pass?;
          }
        }
        AcceptedLayout(c);
      }
      if Sized(spans) {
        forall i | 0 <= i < |keys|
          ensures CheckField(dataSize, offset, keys[i]).Pass?
        {
          assert spans[i].size.Some?;
          CheckedSpan(c, keys[i]);
        }
      }
    }
  }

  /**
   * The decoder's layout from a configuration: the frame size and the four
   * offsets, an `undefined` one as -1. That stands in for `undefined` only in
   * the two integer reads, which reject it as Node does; a name read at -1 is
   * a clamped slice here, where Node would give the empty string.
   */
  function DecoderLayout(c: Config): FrameDecoder.Layout
    requires c.frameSize.Some? && c.offset.Some?
  {
    var offset := c.offset.value;
    FrameDecoder.Layout(c.frameSize.value.Floor,
      OffsetOf(offset, "sender"), OffsetOf(offset, "receiver"),
      OffsetOf(offset, "amount"), OffsetOf(offset, "timestamp"))
  }

  /** A configured offset as the integer the decoder uses. */
  function OffsetOf(offset: Fields, field: string): int
  {
    var v := Get(offset, field);
    if v.Some? then v.value.Floor else -1
  }

  /** An accepted span's start and end as integers the decoder's reads compare against. */
  lemma SpanInFrame(span: Span, width: nat, frameSize: real, block: nat)
    requires span.start.Some? && span.size.Some? && span.size.value >= width as real
    requires IsInteger(span.start.value) && 0.0 <= span.start.value
    requires span.start.value + span.size.value <= frameSize && block as real == frameSize
    ensures 0 <= span.start.value.Floor && span.start.value.Floor + width <= block
  {
  }

  /**
   * A configuration the corrected rule accepts, whose `offset` lists the amount
   * and the timestamp with sizes of at least the 4 and 6 octets the decoder
   * reads, never makes the decoder report an offset problem: every frame-sized
   * block decodes.
   */
  lemma StrictLayoutDecodes(c: Config, block: seq<FrameDecoder.Bytes.byte>)
    requires c.dataSize.Some? && c.offset.Some? && ValidateStrict(c) == Pass
    requires "amount" in Keys(c.offset.value) && "timestamp" in Keys(c.offset.value)
    requires Get(c.dataSize.value, "amount").Some? && Get(c.dataSize.value, "amount").value >= 4.0
    requires Get(c.dataSize.value, "timestamp").Some? && Get(c.dataSize.value, "timestamp").value >= 6.0
    requires c.frameSize.Some? && |block| as real == c.frameSize.value
    ensures FrameDecoder.Decode(block, DecoderLayout(c)).Success?
  {
    StrictAcceptance(c);
    var keys, spans := Keys(c.offset.value), Ranges(c);
    var a :| 0 <= a < |keys| && keys[a] == "amount";
    var t :| 0 <= t < |keys| && keys[t] == "timestamp";
    SpanInFrame(spans[a], 4, c.frameSize.value, |block|);
    SpanInFrame(spans[t], 6, c.frameSize.value, |block|);
    var layout := DecoderLayout(c);
    assert layout.amount == spans[a].start.value.Floor;
    assert layout.timestamp == spans[t].start.value.Floor;
    assert layout.frameSize == |block|;
    FrameDecoder.DecodeCases(block, layout);
  }

  // ----- Object.assign -----

  /** One top-level key of `Object.assign(config, environmentConfig)`: the environment's value, when it has the key, replaces the default's whole. */
  function Override<T>(base: Option<T>, environment: Option<T>): Option<T>
  {
    if environment.Some? then environment else base
  }

  /** `Object.assign(config, environmentConfig)` on the keys the loader uses. */
  function Merge(base: Config, environment: Config): Config
  {
    Config(
      Override(base.serverPort, environment.serverPort),
      Override(base.serverHostname, environment.serverHostname),
      Override(base.frameSize, environment.frameSize),
      Override(base.dataSize, environment.dataSize),
      Override(base.offset, environment.offset))
  }

  /** An object without any of the keys. */
  const NoKeys := Config(None, None, None, None, None)

  /** What loading does with the two files: merge, then validate the merged object. */
  function LoadConfig(base: Config, environment: Config): Outcome<ConfigError>
  {
    Validate(Merge(base, environment))
  }

  /**
   * The merge keeps every key the environment does not set, takes every key it
   * does set, and so has an empty environment as identity and is idempotent
   * and associative.
   */
  lemma MergeLaws(base: Config, middle: Config, environment: Config)
    ensures Merge(base, NoKeys) == base && Merge(NoKeys, environment) == environment
    ensures Merge(base, base) == base
    ensures Merge(Merge(base, middle), environment) == Merge(base, Merge(middle, environment))
    ensures var m := Merge(base, environment);
      && m.serverPort == (if environment.serverPort.Some? then environment.serverPort else base.serverPort)
      && m.serverHostname == (if environment.serverHostname.Some? then environment.serverHostname else base.serverHostname)
      && m.frameSize == (if environment.frameSize.Some? then environment.frameSize else base.frameSize)
      && m.dataSize == (if environment.dataSize.Some? then environment.dataSize else base.dataSize)
      && m.offset == (if environment.offset.Some? then environment.offset else base.offset)
  {
  }

  /** When the environment sets the frame size and both layout objects, the default's layout plays no part. */
  lemma EnvironmentLayoutDecides(base1: Config, base2: Config, environment: Config)
    requires environment.frameSize.Some? && environment.dataSize.Some? && environment.offset.Some?
    ensures LoadConfig(base1, environment) == LoadConfig(base2, environment)
  {
    assert Merge(base1, environment).(serverPort := None, serverHostname := None)
        == Merge(base2, environment).(serverPort := None, serverHostname := None);
  }

  /**
   * Nested objects are not merged: an environment that overrides only the amount
   * offset replaces the whole `offset` object, so the other offsets are gone and
   * the merged configuration is rejected at the first of them.
   */
  lemma PartialOffsetOverrideRejected()
    ensures LoadConfig(DecoderConfig(), NoKeys.(offset := Some([Entry("amount", Some(70.0))])))
      == Fail(OffsetUndefined("sender"))
  {
    var merged := Merge(DecoderConfig(), NoKeys.(offset := Some([Entry("amount", Some(70.0))])));
    var dataSize, offset := merged.dataSize.value, merged.offset.value;
    assert Keys(dataSize) == ["sender", "receiver", "amount", "timestamp"];
    assert Keys(dataSize)[..1] == ["sender"];
    assert CheckFields(dataSize, offset, Keys(dataSize)[..1]) == Fail(OffsetUndefined("sender"));
    CheckFieldsPrefix(dataSize, offset, Keys(dataSize), 1);
  }
}
