/*
 * `ExternalUnderlyingSourceController`, the native byte source behind a
 * ReadableStream (components/script/dom/underlyingsource.rs, copied into
 * components/script/dom/readablestream.rs).  Its buffer loosely matches the
 * "internal queue" of the WHATWG Streams Standard: new chunks go in front,
 * reads take bytes from the back, so bytes leave in the order they arrived.
 *
 * The calls into the JS engine (`ReadableStreamIsReadable`,
 * `ReadableStreamUpdateDataAvailableFromSource`, `ReadableStreamClose`) are
 * returned as a `StreamCall` instead of being made; the answer of the
 * readability query is an input.
 */
module ExternalSource {
  import opened Wrappers

  type byte = b: int | 0 <= b < 256

  /** `ExternalUnderlyingSource`: what feeds the stream; sizes are capacity hints only. */
  datatype ExternalUnderlyingSource = Memory(size: nat) | Blob(size: nat) | FetchResponse

  /**
   * Which copy of the controller: the one in underlyingsource.rs talks to the
   * JS engine; in readablestream.rs the engine calls are commented out.
   */
  datatype Wiring = Live | Stubbed

  /** The answer of `ReadableStreamIsReadable`: the call failed, or the flag it wrote. */
  datatype Readability = QueryFailed | Answered(readable: bool)

  /** What the controller asks the JS engine to do. */
  datatype StreamCall = NoCall | UpdateDataAvailable(available: nat) | CloseStream

  const U32_MODULUS: nat := 0x1_0000_0000

  /**
   * `maybe_signal_available_bytes`: nothing when no byte is available;
   * otherwise, when wired and the stream answers readable, report the count
   * truncated to `u32` (`available as u32`).
   */
  function MaybeSignalAvailableBytes(wiring: Wiring, available: nat, query: Readability): (call: StreamCall)
    ensures available == 0 ==> call == NoCall
    ensures call != NoCall <==> available > 0 && wiring.Live? && query.Answered? && query.readable
    ensures call != NoCall ==> call == UpdateDataAvailable(available % U32_MODULUS)
  {
    if available == 0 then NoCall
    else if wiring.Stubbed? then NoCall
    else if query.QueryFailed? then NoCall
    else if query.readable then UpdateDataAvailable(available % U32_MODULUS)
    else NoCall
  }

  /** `maybe_close_js_stream`: close the JS stream only when wired and it answers readable. */
  function MaybeCloseJsStream(wiring: Wiring, query: Readability): (call: StreamCall)
    ensures call == NoCall || call == CloseStream
    ensures call == CloseStream <==> wiring.Live? && query.Answered? && query.readable
  {
    if wiring.Stubbed? then NoCall
    else if query.QueryFailed? then NoCall
    else if query.readable then CloseStream
    else NoCall
  }

  /** The buffer after `enqueue_chunk(chunk)`: `chunk.append(&mut buffer); *buffer = chunk`. */
  function Enqueue(buffer: seq<byte>, chunk: seq<byte>): seq<byte>
  {
    chunk + buffer
  }

  /** `buffer.split_off(len - n)`: the bytes kept, and the last `n` bytes handed out. */
  function SplitOffLast(buffer: seq<byte>, n: nat): (r: (seq<byte>, seq<byte>))
    requires n <= |buffer|
    ensures r.0 + r.1 == buffer && |r.1| == n
  {
    (buffer[..|buffer| - n], buffer[|buffer| - n..])
  }

  /**
   * Bytes leave in the order they arrived: after enqueuing `first` and then
   * `second` onto `pending`, reading |pending|, |first| and |second| bytes in
   * turn yields `pending`, `first`, `second`.
   */
  lemma ReadsFollowArrivalOrder(pending: seq<byte>, first: seq<byte>, second: seq<byte>)
    ensures var b := Enqueue(Enqueue(pending, first), second);
            var (rest1, out1) := SplitOffLast(b, |pending|);
            var (rest2, out2) := SplitOffLast(rest1, |first|);
            var (rest3, out3) := SplitOffLast(rest2, |second|);
            out1 == pending && out2 == first && out3 == second && rest3 == []
  {
    var b := second + (first + pending);
    assert b[..|b| - |pending|] == second + first;
    assert b[|b| - |pending|..] == pending;
    var r1 := second + first;
    assert r1[..|r1| - |first|] == second;
    assert r1[|r1| - |first|..] == first;
  }

  class ExternalUnderlyingSourceController {
    var buffer: seq<byte>
    var closed: bool
    var inMemory: bool
    const wiring: Wiring

    /** `new`: only a Memory source is in memory; the buffer starts empty and the source open. */
    constructor (source: ExternalUnderlyingSource, wiring: Wiring)
      ensures buffer == [] && !closed && this.wiring == wiring
      ensures inMemory <==> source.Memory?
    {
      buffer := [];
      closed := false;
      inMemory := source.Memory?;
      this.wiring := wiring;
    }

    /** `in_memory`. */
    function InMemory(): bool
      reads this
    {
      inMemory
    }

    /** `get_in_memory_bytes`: a copy of the buffer exactly when the source is in memory. */
    function GetInMemoryBytes(): (r: Option<seq<byte>>)
      reads this
      ensures r.Some? <==> inMemory
      ensures r.Some? ==> r.value == buffer
    {
      if inMemory then Some(buffer) else None
    }

    /** `close`: mark the source closed, then maybe close the JS stream. */
    method Close(query: Readability) returns (call: StreamCall)
      modifies this
      ensures closed && buffer == old(buffer) && inMemory == old(inMemory)
      ensures call == MaybeCloseJsStream(wiring, query)
    {
      closed := true;
      call := MaybeCloseJsStream(wiring, query);
    }

    /** `enqueue_chunk`: the chunk goes in front of the buffered bytes, and the new total is signalled. */
    method EnqueueChunk(chunk: seq<byte>, query: Readability) returns (call: StreamCall)
      modifies this
      ensures buffer == Enqueue(old(buffer), chunk)
      ensures closed == old(closed) && inMemory == old(inMemory)
      ensures call == MaybeSignalAvailableBytes(wiring, |chunk| + |old(buffer)|, query)
    {
      buffer := chunk + buffer;
      call := MaybeSignalAvailableBytes(wiring, |buffer|, query);
    }

    /** `pull`: a closed source only maybe-closes the stream; an open one signals what it holds. */
    method Pull(desiredSize: nat, query: Readability) returns (call: StreamCall)
      ensures call == if closed then MaybeCloseJsStream(wiring, query)
                      else MaybeSignalAvailableBytes(wiring, |buffer|, query)
    {
      if closed {
        call := MaybeCloseJsStream(wiring, query);
        return;
      }
      var available := |buffer|;
      call := MaybeSignalAvailableBytes(wiring, available, query);
    }

    /**
     * `get_chunk_with_length`: the last `length` bytes, which leave the buffer;
     * asking for more than is buffered fails the `assert!` and changes nothing.
     */
    method GetChunkWithLength(length: nat) returns (r: Result<seq<byte>, string>)
      modifies this
      ensures closed == old(closed) && inMemory == old(inMemory)
      ensures length <= |old(buffer)| ==> r == Ok(SplitOffLast(old(buffer), length).1) && buffer == SplitOffLast(old(buffer), length).0
      ensures length > |old(buffer)| ==> r.Err? && buffer == old(buffer)
    {
      var bufferLen := |buffer|;
      if bufferLen < length {
        return Err("assertion failed: buffer_len >= length as usize");
      }
      var chunk := buffer[bufferLen - length..];
      buffer := buffer[..bufferLen - length];
      r := Ok(chunk);
    }

    /**
     * `write_into_buffer`: fill `dest` with the last `dest.Length` bytes of the
     * buffer, which leave it; a `dest` longer than the buffer fails before any copy.
     */
    method WriteIntoBuffer(dest: array<byte>) returns (ok: bool)
      modifies this, dest
      ensures ok <==> dest.Length <= |old(buffer)|
      ensures ok ==> dest[..] == SplitOffLast(old(buffer), dest.Length).1 && buffer == SplitOffLast(old(buffer), dest.Length).0
      ensures !ok ==> dest[..] == old(dest[..]) && buffer == old(buffer)
      ensures closed == old(closed) && inMemory == old(inMemory)
    {
      var length := dest.Length;
      var chunk := GetChunkWithLength(length);
      if chunk.Err? {
        return false;
      }
      var bytes := chunk.value;
      ghost var kept := buffer;
      var i := 0;
      while i < length
        invariant 0 <= i <= length
        invariant forall k :: 0 <= k < i ==> dest[k] == bytes[k]
        invariant buffer == kept && closed == old(closed) && inMemory == old(inMemory)
      {
        dest[i] := bytes[i];
        i := i + 1;
      }
      assert dest[..] == bytes;
      ok := true;
    }
  }

  /**
   * The `write_into_read_request_buffer` callback: the chunk must not be shared
   * memory (`assert!`); the controller fills it and the whole length is
   * reported as written.
   */
  method WriteIntoReadRequestBuffer(source: ExternalUnderlyingSourceController, chunk: array<byte>, isSharedMemory: bool)
    returns (bytesWritten: Result<nat, string>)
    modifies source, chunk
    ensures bytesWritten.Ok? ==> bytesWritten.value == chunk.Length
    ensures bytesWritten.Ok? <==> !isSharedMemory && chunk.Length <= |old(source.buffer)|
    ensures bytesWritten.Ok? ==> chunk[..] == SplitOffLast(old(source.buffer), chunk.Length).1
    ensures isSharedMemory ==> source.buffer == old(source.buffer) && chunk[..] == old(chunk[..])
  {
    if isSharedMemory {
      return Err("assertion failed: !is_shared_memory");
    }
    var ok := source.WriteIntoBuffer(chunk);
    if !ok {
      return Err("assertion failed: buffer_len >= length as usize");
    }
    bytesWritten := Ok(chunk.Length);
  }
}
