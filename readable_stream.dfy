/*
 * The ReadableStream DOM object of components/script/dom/readablestream.rs:
 * its internal slots, their initial values, `SetController`, and the
 * constructor's steps as far as they are written (WHATWG Streams Standard,
 * "new ReadableStream(underlyingSource, strategy)").
 *
 * `extract_highwatermark` and
 * `setup_readable_stream_default_controller_from_underlying_source` are not
 * part of this model: each is an input function giving its outcome.
 */
module ReadableStreams {
  import opened Wrappers
  import Trace

  /** `ReaderState`, with `Readable` as its `#[default]`. */
  datatype ReaderState = Readable | Closed | Errored

  /** A `ReadableStreamController`: a default or a byte-stream controller object. */
  datatype ReadableStreamController = DefaultController(id: nat) | ByteStreamController(id: nat)

  /** A `ReadableStreamDefaultReader` object. */
  type ReaderRef = nat

  /** The DOM errors the constructor returns. */
  datatype Error = TypeError(message: string) | RangeError(message: string) | OtherError(message: string)

  /** `ReadableStreamType`: the WebIDL enum has the single value "bytes". */
  datatype StreamType = Bytes

  /** The converted `UnderlyingSource` dictionary; only its `type` member matters here. */
  datatype UnderlyingSourceDict = UnderlyingSourceDict(streamType: Option<StreamType>)

  /**
   * `UnderlyingSource::new` on the source object: `Ok(Success(dict))`,
   * `Ok(Failure(message))`, or `Err(_)` (an exception was pending).
   */
  datatype DictConversion = Converted(dict: UnderlyingSourceDict) | ConversionFailure(message: string) | ConversionThrew

  /** The `QueuingStrategy` dictionary: whether `size` was given, and `highWaterMark` if it was. */
  datatype QueuingStrategy = QueuingStrategy(hasSize: bool, highWaterMark: Option<real>)

  /** The message of the step 4.1 RangeError. */
  const SizeWithBytesMessage := "Implementation preserved member 'size'"

  /**
   * Steps 1–5 of the constructor as an outcome: `Ok(())` when the stream is
   * returned.  `source` is `None` for a missing (null) source object, which
   * gives the empty dictionary; otherwise it is the result of converting it.
   */
  function ConstructorOutcome(source: Option<DictConversion>, strategy: QueuingStrategy,
                              extractHighWaterMark: (QueuingStrategy, real) -> Result<real, Error>,
                              setupDefaultController: (UnderlyingSourceDict, real) -> Result<(), Error>): (r: Result<(), Error>)
    ensures source == Some(ConversionThrew) ==> r == Err(TypeError("TODO"))
    ensures source.Some? && source.value.ConversionFailure? ==> r == Err(TypeError(source.value.message))
    ensures source.Some? && source.value.Converted? && source.value.dict.streamType.Some? && strategy.hasSize ==>
              r == Err(RangeError(SizeWithBytesMessage))
    ensures var dict := if source.Some? && source.value.Converted? then source.value.dict else UnderlyingSourceDict(None);
            (source.None? || source.value.Converted?) && dict.streamType.Some? && !strategy.hasSize ==>
              r == if extractHighWaterMark(strategy, 0.0).Err? then Err(extractHighWaterMark(strategy, 0.0).error) else Ok(())
    ensures var dict := if source.Some? && source.value.Converted? then source.value.dict else UnderlyingSourceDict(None);
            (source.None? || source.value.Converted?) && dict.streamType.None? ==>
              r == if extractHighWaterMark(strategy, 1.0).Err? then Err(extractHighWaterMark(strategy, 1.0).error)
                   else setupDefaultController(dict, extractHighWaterMark(strategy, 1.0).value)
    ensures r.Ok? ==> source.None? || source.value.Converted?
  {
    // Step 2: convert the source object to a dictionary.
    var dict :- match source
      case None => Ok(UnderlyingSourceDict(None))
      case Some(Converted(d)) => Ok(d)
      case Some(ConversionFailure(message)) => Err(TypeError(message))
      case Some(ConversionThrew) => Err(TypeError("TODO"));
    if dict.streamType.Some? then
      // Step 4.1: a byte stream may not have a size function.
      if strategy.hasSize then Err(RangeError(SizeWithBytesMessage))
      else
        // Step 4.2; byte streams are not set up further.
        var _ :- extractHighWaterMark(strategy, 0.0);
        Ok(())
    else
      // Steps 5.3 and 5.4.
      var highWaterMark :- extractHighWaterMark(strategy, 1.0);
      setupDefaultController(dict, highWaterMark)
  }

  class ReadableStream {
    var controller: Option<ReadableStreamController>
    var disturbed: bool          // the `disturbute` field
    var reader: Option<ReaderRef>
    var state: ReaderState
    var storedError: Trace.JSVal

    /** `new_inherited`: every slot takes its default (InitializeReadableStream). */
    constructor NewInherited()
      ensures controller == None && !disturbed && reader == None
      ensures state == Readable && storedError == Trace.UndefinedValue
    {
      controller := None;
      disturbed := false;
      reader := None;
      state := Readable;
      storedError := Trace.UndefinedValue;
    }

    /** `SetController`: the controller slot now holds `c`; nothing else changes. */
    method SetController(c: ReadableStreamController)
      modifies this
      ensures controller == Some(c)
      ensures disturbed == old(disturbed) && reader == old(reader) && state == old(state) && storedError == old(storedError)
    {
      controller := Some(c);
    }
  }

  /**
   * `ReadableStream::Constructor`: the new stream (allocated at step 3,
   * before the checks of step 4) is returned exactly when the steps succeed.
   */
  method Constructor(source: Option<DictConversion>, strategy: QueuingStrategy,
                     extractHighWaterMark: (QueuingStrategy, real) -> Result<real, Error>,
                     setupDefaultController: (UnderlyingSourceDict, real) -> Result<(), Error>)
    returns (r: Result<ReadableStream, Error>)
    ensures ConstructorOutcome(source, strategy, extractHighWaterMark, setupDefaultController).Err? ==>
              r == Err(ConstructorOutcome(source, strategy, extractHighWaterMark, setupDefaultController).error)
    ensures ConstructorOutcome(source, strategy, extractHighWaterMark, setupDefaultController).Ok? ==>
              r.Ok? && fresh(r.value) && r.value.state == Readable && !r.value.disturbed && r.value.reader == None
  {
    var outcome := ConstructorOutcome(source, strategy, extractHighWaterMark, setupDefaultController);
    if outcome.Err? {
      return Err(outcome.error);
    }
    var stream := new ReadableStream.NewInherited();
    r := Ok(stream);
  }
}
