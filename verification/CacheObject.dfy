/**
 The compressed cache object of src/CacheObject.cpp: a four-state machine around one z_stream, a
 buffer that grows by chunks while compressing, and a read loop that restarts at the start of the
 caller's buffer.
 */
module CacheObjects {
  import opened Bytes
  import opened Zlib

  const Z_CHUNK_SIZE: nat := 16384

  datatype CacheState = EMPTY | WRITE | FULL | READ

  /** The fields set from outside: validators, length, status and the tidied flag. */
  datatype Headers = Headers(pEtag: Option<string>, pLast_modified: Option<string>,
                             lContent_length: nat, iHttpCode: int, bTidyFlag: bool)

  /**
   What a cache object stands for, without compression: nothing, a body still being written, a
   finished body, a finished body read up to `pos`, or the debris of an abandoned compression.
   */
  datatype Content =
    | Nothing
    | Writing(data: seq<byte>)
    | Stored(data: seq<byte>)
    | Reading(data: seq<byte>, pos: nat)
    | Abandoned
  {
    predicate Readable() {
      Nothing? || Stored? || (Reading? && pos <= |data|)
    }

    /** The bytes the next reads will give. */
    function Remaining(): seq<byte>
      requires Readable()
    {
      match this
      case Nothing => []
      case Stored(data) => data
      case Reading(data, pos) => data[pos..]
    }
  }

  // ---- The specification of the four operations, on contents ------------------------------------------------

  /** writeBytes: Some(chunk) appends, None is writeBytes(NULL, 0) and finishes. */
  function AfterWrite(c: Content, chunk: Option<seq<byte>>): Content {
    var data := if c.Writing? then c.data else [];
    match chunk
    case Some(bytes) => Writing(data + bytes)
    case None => Stored(data)
  }

  function AfterRead(c: Content, n: nat): Content
    requires c.Readable()
  {
    match c
    case Nothing => Nothing
    case Stored(data) => Reading(data, Min(n, |data|))
    case Reading(data, pos) => Reading(data, Min(pos + n, |data|))
  }

  /** The bytes one readBytes(n) gives. */
  function ReadOut(c: Content, n: nat): seq<byte>
    requires c.Readable()
  {
    c.Remaining()[..Min(n, |c.Remaining()|)]
  }

  lemma {:induction false} ReadGives(data: seq<byte>, start: nat, n: nat, r: nat)
    requires start <= |data| && r == Min(n, |data| - start)
    ensures data[start..][..r] == data[start..start + r]
  {
  }

  function AfterReset(c: Content): Content {
    match c
    case Writing(_) => Abandoned
    case Reading(data, _) => Stored(data)
    case _ => c
  }

  /** `count` chunks hold n bytes and `count - 1` would not. */
  predicate LeastChunks(count: nat, n: nat) {
    n <= count * Z_CHUNK_SIZE < n + Z_CHUNK_SIZE
  }

  class CacheObject {
    const zlib: Zlib
    const pSrcUrl: string

    var headers: Headers

    var eState: CacheState
    // c_stream, with next_in/avail_in of the decompressing side
    var deflater: Deflater
    var inflater: Inflater
    var next_in: seq<byte>
    // zBuffer is as long as its allocation; [] is the null pointer
    var zBuffer: seq<byte>
    var zBufferAllocCount: nat
    var zBufferSize: nat
    var zBufferPos: nat

    ghost var content: seq<byte>
    ghost var pos: nat
    ghost var sound: bool

    /** While compressing: position, size and allocation count are tied to total_out exactly. */
    ghost predicate Growing()
      reads this`deflater, this`zBuffer, this`zBufferAllocCount, this`zBufferSize, this`zBufferPos
    {
      && zBufferPos == |deflater.out|
      && LeastChunks(zBufferAllocCount, |deflater.out|)
      && zBufferSize == zBufferAllocCount * Z_CHUNK_SIZE
      && |zBuffer| == zBufferSize
      && zBufferPos <= zBufferSize
      && zBuffer[..zBufferPos] == deflater.out
    }

    ghost predicate Valid()
      reads this`eState, this`deflater, this`inflater, this`next_in, this`content, this`pos, this`sound
      reads this`zBuffer, this`zBufferAllocCount, this`zBufferSize, this`zBufferPos
    {
      match eState
      case EMPTY => zBuffer == [] && zBufferAllocCount == zBufferSize == zBufferPos == 0
      case WRITE => Growing() && zlib.Writes(deflater) && !deflater.finishing && deflater.fed == content
      case FULL => |zBuffer| == zBufferSize && (sound ==> zlib.Encodes(zBuffer, content))
      case READ =>
        && sound && |zBuffer| == zBufferSize && zlib.Encodes(zBuffer, content)
        && pos <= |content| && zlib.Tracks(inflater, next_in, content[pos..])
    }

    ghost function View(): Content
      reads this`eState, this`content, this`pos, this`sound
    {
      match eState
      case EMPTY => Nothing
      case WRITE => Writing(content)
      case FULL => if sound then Stored(content) else Abandoned
      case READ => Reading(content, pos)
    }

    constructor (zlib: Zlib, url: string)
      ensures Valid() && View() == Nothing
      ensures this.zlib == zlib && pSrcUrl == url
      ensures headers == Headers(None, None, 0, 0, false)
    {
      this.zlib, pSrcUrl := zlib, url;
      headers := Headers(None, None, 0, 0, false);
      eState := EMPTY;
      deflater, inflater, next_in := zlib.deflateInit, zlib.inflateInit, [];
      zBuffer, zBufferAllocCount, zBufferSize, zBufferPos := [], 0, 0, 0;
      content, pos, sound := [], 0, true;
    }

    /** Ends a running (de)compression and keeps the buffers. */
    method ResetState()
      requires Valid()
      modifies this
      ensures Valid() && headers == old(headers)
      ensures View() == AfterReset(old(View()))
      ensures zBufferSize == old(zBufferSize)
    {
      match eState {
        case WRITE =>
          eState := FULL;
          sound := false;
        case READ =>
          eState := FULL;
        case _ =>
      }
      deflater, inflater, next_in := zlib.deflateInit, zlib.inflateInit, [];
    }

    method ResetBuffer()
      modifies this
      ensures Valid() && headers == old(headers) && View() == Nothing
    {
      zBuffer := [];
      zBufferAllocCount, zBufferPos, zBufferSize := 0, 0, 0;
      eState := EMPTY;
    }

    /** getState() == BUSY: a (de)compression is under way. */
    predicate IsBusy()
      reads this`eState
    {
      eState == WRITE || eState == READ
    }

    /** So an object is BUSY exactly while a body is being written to it or read from it. */
    lemma {:induction false} BusyIs()
      requires Valid()
      ensures IsBusy() <==> View().Writing? || View().Reading?
    {
    }

    method SetEtag(etag: string)
      modifies this`headers
      ensures Valid() == old(Valid()) && View() == old(View())
      ensures headers == old(headers).(pEtag := Some(etag))
    {
      headers := headers.(pEtag := Some(etag));
    }

    method SetLastModified(date: string)
      modifies this`headers
      ensures Valid() == old(Valid()) && View() == old(View())
      ensures headers == old(headers).(pLast_modified := Some(date))
    {
      headers := headers.(pLast_modified := Some(date));
    }

    method SetContentLength(length: nat)
      modifies this`headers
      ensures Valid() == old(Valid()) && View() == old(View())
      ensures headers == old(headers).(lContent_length := length)
    {
      headers := headers.(lContent_length := length);
    }

    method SetHttpCode(code: int)
      modifies this`headers
      ensures Valid() == old(Valid()) && View() == old(View())
      ensures headers == old(headers).(iHttpCode := code)
    {
      headers := headers.(iHttpCode := code);
    }

    method SetTidyFlag(flag: bool)
      modifies this`headers
      ensures Valid() == old(Valid()) && View() == old(View())
      ensures headers == old(headers).(bTidyFlag := flag)
    {
      headers := headers.(bTidyFlag := flag);
    }

    /** Lets zBuffer grow by whole chunks until it can hold total_out bytes. */
    method Grow(total_out: nat)
      requires |zBuffer| == zBufferSize == zBufferAllocCount * Z_CHUNK_SIZE
      requires zBufferSize < total_out + Z_CHUNK_SIZE
      modifies this`zBuffer, this`zBufferAllocCount, this`zBufferSize
      ensures LeastChunks(zBufferAllocCount, total_out)
      ensures |zBuffer| == zBufferSize == zBufferAllocCount * Z_CHUNK_SIZE
      ensures old(zBuffer) <= zBuffer
    {
      while zBufferSize < total_out
        invariant |zBuffer| == zBufferSize == zBufferAllocCount * Z_CHUNK_SIZE
        invariant zBufferSize < total_out + Z_CHUNK_SIZE
        invariant old(zBuffer) <= zBuffer
        decreases total_out - zBufferSize
      {
        zBufferAllocCount := zBufferAllocCount + 1;
        zBufferSize := zBufferAllocCount * Z_CHUNK_SIZE;
        zBuffer := zBuffer + seq(Z_CHUNK_SIZE, _ => 0);
      }
    }

    /** Takes what one deflate() left in c_stream_buffer over into zBuffer. */
    method Collect(staged: seq<byte>)
      requires zBufferPos == |deflater.out| - |staged| && |staged| <= Z_CHUNK_SIZE
      requires deflater.out[zBufferPos..] == staged
      requires LeastChunks(zBufferAllocCount, zBufferPos)
      requires |zBuffer| == zBufferSize == zBufferAllocCount * Z_CHUNK_SIZE
      requires zBuffer[..zBufferPos] == deflater.out[..zBufferPos]
      modifies this`zBuffer, this`zBufferAllocCount, this`zBufferSize, this`zBufferPos
      ensures Growing()
    {
      Grow(|deflater.out|);
      if |staged| != 0 && zBufferSize - zBufferPos >= |staged| {
        zBuffer := zBuffer[..zBufferPos] + staged + zBuffer[zBufferPos + |staged|..];
        zBufferPos := zBufferPos + |staged|;
      } else if zBufferSize < |deflater.out| {
        assert false; // the staging copy always fits
      }
    }

    /** One turn of the compression loop. */
    method DeflateOnce(input: seq<byte>, doFlush: bool) returns (err: Code, rest: seq<byte>, full: bool)
      requires Growing() && zlib.Writes(deflater)
      requires deflater.finishing ==> doFlush && input == []
      modifies this`deflater, this`zBuffer, this`zBufferAllocCount, this`zBufferSize, this`zBufferPos
      ensures Growing() && deflater.fed + rest == old(deflater.fed) + input
      ensures err == StreamEnd ==> doFlush && zlib.Encodes(deflater.out, deflater.fed)
      ensures err != StreamEnd ==> zlib.Writes(deflater) && (!full ==> !doFlush)
      ensures deflater.finishing == doFlush && (input == [] ==> rest == []) && (err == StreamEnd ==> rest == [])
      ensures err != NeedDict && (rest == [] || full)
      ensures err == BufError ==> rest == []
      ensures |rest| <= |input|
      ensures full && err == Ok && |rest| == |input| ==> zlib.Pending(deflater) < zlib.Pending(old(deflater))
      ensures full ==> err != BufError
    {
      var z := deflater;
      var step := zlib.Deflate(z, input, doFlush, Z_CHUNK_SIZE);
      assert DeflateStep(zlib, z, input, doFlush, Z_CHUNK_SIZE, step);
      err := step.code;
      var staged := step.z.out[|z.out|..];
      rest := input[|step.z.fed| - |z.fed|..];
      deflater := step.z;
      full := |staged| == Z_CHUNK_SIZE;
      if err == Ok || err == StreamEnd {
        Collect(staged);
      }
    }

    /** The compression loop: it ends when the input is in and no output is held back. */
    method Compress(input: seq<byte>, doFlush: bool)
      requires Growing() && zlib.Writes(deflater) && !deflater.finishing
      requires doFlush ==> input == []
      modifies this`deflater, this`zBuffer, this`zBufferAllocCount, this`zBufferSize, this`zBufferPos
      ensures Growing() && deflater.fed == old(deflater.fed) + input
      ensures if doFlush then zlib.Encodes(deflater.out, deflater.fed) else zlib.Writes(deflater) && !deflater.finishing
    {
      var avail_in, err, again := input, Ok, true;
      while again
        invariant Growing()
        invariant deflater.fed + avail_in == old(deflater.fed) + input
        invariant if err == StreamEnd then zlib.Encodes(deflater.out, deflater.fed) else zlib.Writes(deflater)
        invariant deflater.finishing ==> doFlush
        invariant doFlush ==> avail_in == []
        invariant again ==> err != StreamEnd
        invariant !again ==> avail_in == [] && (doFlush <==> err == StreamEnd) && deflater.finishing == doFlush
        decreases again, |avail_in|, zlib.Pending(deflater)
      {
        var full;
        err, avail_in, full := DeflateOnce(avail_in, doFlush);
        again := avail_in != [] || (err == Ok && full);
      }
    }

    /** Makes the object ready to take data: a finished one is dropped, an empty one set up. */
    method Begin()
      requires Valid()
      modifies this
      ensures Valid() && headers == old(headers) && eState == WRITE
      ensures content == if old(View()).Writing? then old(View()).data else []
    {
      if eState == READ || eState == FULL {
        ResetState();
        ResetBuffer();
      }
      if eState == EMPTY {
        deflater := zlib.deflateInit;
        content := [];
        eState := WRITE;
      }
    }

    /** writeBytes(buffer, bytes); None stands for writeBytes(NULL, 0). */
    method WriteBytes(buffer: Option<seq<byte>>) returns (r: nat)
      requires Valid()
      modifies this
      ensures Valid() && headers == old(headers)
      ensures View() == AfterWrite(old(View()), buffer)
      ensures r == if buffer.Some? then |buffer.value| else 0
    {
      Begin();
      var input := if buffer.Some? then buffer.value else [];
      Compress(input, buffer.None?);
      content := content + input;
      if buffer.None? {
        zBufferSize := zBufferPos;
        zBuffer := zBuffer[..zBufferSize];
        eState := FULL;
        sound := true;
      }
      r := |input|;
    }

    /**
     One turn of the decompression loop: the caller's buffer is cleared and filled from its start.
     Only a request for the dictionary leaves both input and room, and then nothing was written.
     */
    method InflateOnce(buffer: array<byte>, at: nat, bytes: nat) returns (n: nat)
      requires Valid() && eState == READ
      requires at + bytes <= buffer.Length
      modifies this`inflater, this`next_in, this`pos, buffer
      ensures Valid() && eState == READ
      ensures n <= bytes && pos == old(pos) + n <= |content|
      ensures buffer[at..at + n] == content[old(pos)..pos]
      ensures buffer[..at] == old(buffer[..at]) && buffer[at + bytes..] == old(buffer[at + bytes..])
      ensures n < bytes && next_in != [] ==> n == 0 && !old(inflater.primed) && inflater.primed
      ensures n < bytes && next_in == [] ==> pos == |content|
    {
      var step := zlib.Inflate(inflater, next_in, bytes);
      assert InflateStep(zlib, inflater, next_in, content[pos..], bytes, step);
      n := |step.output|;
      Overwrite(buffer, at, bytes, step.output);
      PrefixAt(content, pos, step.output);
      inflater, next_in := step.z, next_in[step.consumed..];
      if step.code == NeedDict {
        inflater := zlib.SetDictionary(inflater);
      } else {
        pos := pos + n;
      }
    }

    /** readBytes(buffer + at, bytes). */
    method ReadBytes(buffer: array<byte>, at: nat, bytes: nat) returns (r: nat)
      requires Valid() && View().Readable()
      requires at + bytes <= buffer.Length
      modifies this, buffer
      ensures Valid() && headers == old(headers) && zBufferSize == old(zBufferSize)
      ensures View() == AfterRead(old(View()), bytes)
      ensures r == |ReadOut(old(View()), bytes)|
      ensures buffer[at..at + r] == ReadOut(old(View()), bytes)
      ensures buffer[..at] == old(buffer[..at]) && buffer[at + bytes..] == old(buffer[at + bytes..])
    {
      if eState == EMPTY || |zBuffer| == 0 {
        return 0;
      }
      if eState == FULL {
        inflater := zlib.SetDictionary(zlib.inflateInit);
        eState := READ;
        next_in := zBuffer;
        pos := 0;
        assert content[0..] == content;
      }
      ghost var start := pos;
      var again := true;
      r := 0;
      while again
        invariant Valid() && headers == old(headers) && eState == READ && zBufferSize == old(zBufferSize)
        invariant content == old(content)
        invariant again ==> pos == start
        invariant !again ==> r <= bytes && pos == start + r && (r < bytes ==> pos == |content|)
        invariant !again ==> buffer[at..at + r] == content[start..pos]
        invariant buffer[..at] == old(buffer[..at]) && buffer[at + bytes..] == old(buffer[at + bytes..])
        decreases again, !inflater.primed
      {
        r := InflateOnce(buffer, at, bytes);
        again := r != bytes && next_in != [];
      }
      ReadGives(content, start, bytes, r);
    }
  }
}
