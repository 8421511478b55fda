/**
 The zlib contract that src/CacheObject.cpp relies on.

 zlib itself is environment: it is a record of step functions together with the laws its manual
 gives for deflate() and inflate() on a stream with a preset dictionary (section 2.2 of RFC 1950).
 `Zlib` is the type of all records that obey the laws; every class of the project holds for each
 of them. The stored-block coder at the end shows that the laws can be met.
 */
module Zlib {
  import opened Bytes

  /** Return codes of deflate() and inflate(); the fatal ones are outside the model. */
  datatype Code = Ok | StreamEnd | NeedDict | BufError

  /**
   A compressing z_stream after deflateInit and deflateSetDictionary: all bytes taken in so far
   (total_in of them), all bytes given out so far (total_out of them), whether Z_FINISH has been
   seen, and the private memory of the coder.
   */
  datatype Deflater = Deflater(fed: seq<byte>, out: seq<byte>, finishing: bool, memory: nat)

  /** A decompressing z_stream: what it has eaten and made, whether inflateSetDictionary took effect. */
  datatype Inflater = Inflater(eaten: seq<byte>, made: seq<byte>, primed: bool, memory: nat)

  datatype DeflateResult = DeflateResult(code: Code, z: Deflater)
  datatype InflateResult = InflateResult(code: Code, consumed: nat, output: seq<byte>, z: Inflater)

  /**
   The first five fields are what zlib does. The last four are what its laws speak about: reachable
   compressing states, output still held back, finished streams with their content, and
   decompressing states that are under way in a stream.
   */
  datatype Codec = Codec(
    deflateInit: Deflater,
    deflateFn: (Deflater, seq<byte>, bool, nat) -> DeflateResult,
    inflateInit: Inflater,
    setDictionaryFn: Inflater -> Inflater,
    inflateFn: (Inflater, seq<byte>, nat) -> InflateResult,
    writingFn: Deflater -> bool,
    pendingFn: Deflater -> nat,
    encodesFn: (seq<byte>, seq<byte>) -> bool,
    trackFn: (Inflater, seq<byte>, seq<byte>) -> bool
  ) {
    function Deflate(z: Deflater, input: seq<byte>, finish: bool, room: nat): DeflateResult { deflateFn(z, input,
        finish, room) }
    function SetDictionary(i: Inflater): Inflater { setDictionaryFn(i) }
    function Inflate(i: Inflater, rest: seq<byte>, room: nat): InflateResult { inflateFn(i, rest, room) }
    predicate Writes(z: Deflater) { writingFn(z) }
    function Pending(z: Deflater): nat { pendingFn(z) }
    predicate Encodes(packed: seq<byte>, data: seq<byte>) { encodesFn(packed, data) }
    predicate Tracks(i: Inflater, rest: seq<byte>, left: seq<byte>) { trackFn(i, rest, left) }
  }

  /**
   One call of deflate() with `room` free bytes of output. It stops when the input is used up or
   the output is full; a finishing call returns Z_OK only for want of room, and otherwise ends
   the stream; Z_BUF_ERROR means that there was nothing to do.
   */
  ghost predicate DeflateStep(c: Codec, z: Deflater, input: seq<byte>, finish: bool, room: nat, r: DeflateResult) {
    && z.fed <= r.z.fed && |r.z.fed| - |z.fed| <= |input|
    && r.z.fed == z.fed + input[..|r.z.fed| - |z.fed|]
    && z.out <= r.z.out && |r.z.out| - |z.out| <= room
    && (|r.z.fed| - |z.fed| == |input| || |r.z.out| - |z.out| == room)
    && r.z.finishing == finish
    && (r.code == StreamEnd ==> finish && r.z.fed == z.fed + input && c.Encodes(r.z.out, r.z.fed))
    && (r.code == Ok ==> c.Writes(r.z))
    && (r.code == Ok && finish ==> |r.z.out| - |z.out| == room)
    && (r.code == BufError ==> input == [] && !finish && r.z == z)
    && r.code != NeedDict
    && (r.z.fed == z.fed && r.z.out != z.out && r.code == Ok ==> c.Pending(r.z) < c.Pending(z))
  }

  /**
   One call of inflate() on a stream whose remaining input is exactly `rest` and whose remaining
   content is exactly `left`. It stops when the input is used up or the output is full, and with
   all input used up and room to spare nothing is held back. The dictionary is asked for at most
   once, before any output, and there is input after it.
   */
  ghost predicate InflateStep(c: Codec, i: Inflater, rest: seq<byte>, left: seq<byte>, room: nat, r: InflateResult) {
    && r.consumed <= |rest| && |r.output| <= room
    && (r.code == NeedDict ==>
          && !i.primed && r.output == [] && r.consumed < |rest|
          && c.SetDictionary(r.z).primed
          && c.Tracks(c.SetDictionary(r.z), rest[r.consumed..], left))
    && (r.code != NeedDict ==>
          && r.output <= left
          && (|r.output| == room || r.consumed == |rest|)
          && (r.consumed == |rest| && |r.output| < room ==> r.output == left)
          && c.Tracks(r.z, rest[r.consumed..], left[|r.output|..]))
  }

  ghost predicate Lawful(c: Codec) {
    && c.Writes(c.deflateInit) && !c.deflateInit.finishing
    && c.deflateInit.fed == [] && c.deflateInit.out == []
    && (forall z, input, finish, room: nat | c.Writes(z) && 0 < room && (z.finishing ==> finish && input == []) ::
          DeflateStep(c, z, input, finish, room, c.Deflate(z, input, finish, room)))
    && (forall packed, data | c.Encodes(packed, data) ::
          packed != [] && c.Tracks(c.SetDictionary(c.inflateInit), packed, data))
    && (forall i, rest, left, room: nat | c.Tracks(i, rest, left) ::
          InflateStep(c, i, rest, left, room, c.Inflate(i, rest, room)))
  }

  type Zlib = c: Codec | Lawful(c) ghost witness StoredCodec()

  // ---------------------------------------------------------------------------------------------
  // A coder that meets the laws: RFC 1950 framing with FDICT set around stored blocks of one byte
  // each (section 3.2.4 of RFC 1951). Its output is a genuine zlib stream.
  // ---------------------------------------------------------------------------------------------

  /** CMF, FLG with FDICT, and the four DICTID bytes (those of an empty dictionary). */
  function Header(): (h: seq<byte>)
    ensures |h| == 6
  {
    [0x78, 0xBB, 0, 0, 0, 1]
  }

  /** Not-final stored blocks of length 1: BFINAL/BTYPE, LEN, NLEN, the byte. */
  function Blocks(data: seq<byte>): (b: seq<byte>)
    ensures |b| == 6 * |data|
  {
    if data == [] then [] else Blocks(data[..|data| - 1]) + [0, 1, 0, 254, 255, data[|data| - 1]]
  }

  function Adler32(data: seq<byte>): (ab: (nat, nat))
    ensures ab.0 < 65521 && ab.1 < 65521
  {
    if data == [] then (1, 0) else
      var (a, b) := Adler32(data[..|data| - 1]);
      var a' := (a + data[|data| - 1]) % 65521;
      (a', (b + a') % 65521)
  }

  /** The final empty stored block and the Adler-32 trailer. */
  function Trailer(data: seq<byte>): (t: seq<byte>)
    ensures |t| == 9
  {
    var (a, b) := Adler32(data);
    [1, 0, 0, 255, 255, b / 256, b % 256, a / 256, a % 256]
  }

  function Encode(data: seq<byte>): seq<byte> {
    Header() + Blocks(data) + Trailer(data)
  }

  /** The content of a block list, read back: every sixth byte. */
  function Unblock(blocks: seq<byte>): (data: seq<byte>)
    decreases |blocks|
    ensures |data| == |blocks| / 6
  {
    if |blocks| < 6 then [] else Unblock(blocks[..|blocks| - 6]) + [blocks[|blocks| - 1]]
  }

  function Decode(packed: seq<byte>): seq<byte> {
    if |packed| < 15 then [] else Unblock(packed[6..|packed| - 9])
  }

  lemma {:induction false} UnblockInvertsBlocks(data: seq<byte>)
    ensures Unblock(Blocks(data)) == data
  {
    if data != [] {
      var n := |data| - 1;
      UnblockInvertsBlocks(data[..n]);
      var b := Blocks(data);
      assert b[..|b| - 6] == Blocks(data[..n]);
      assert data == data[..n] + [data[n]];
    }
  }

  /** The stored coder inverts: a finished stream decodes to what was fed. */
  lemma {:induction false} DecodeInvertsEncode(data: seq<byte>)
    ensures Decode(Encode(data)) == data
  {
    var e := Encode(data);
    assert e[6..|e| - 9] == Blocks(data);
    UnblockInvertsBlocks(data);
  }

  lemma {:induction false} BlocksExtend(a: seq<byte>, b: seq<byte>)
    ensures Blocks(a) <= Blocks(a + b)
  {
    if b == [] {
      assert a + b == a;
    } else {
      var n := |b| - 1;
      BlocksExtend(a, b[..n]);
      assert (a + b)[..|a + b| - 1] == a + b[..n];
    }
  }

  /** Everything the stored coder may have written once `data` is in, finished or not. */
  function StoredTarget(data: seq<byte>, finish: bool): seq<byte> {
    if finish then Encode(data) else Header() + Blocks(data)
  }

  function StoredDeflate(z: Deflater, input: seq<byte>, finish: bool, room: nat): DeflateResult {
    var fed := z.fed + input;
    var target := StoredTarget(fed, finish);
    var upto := Min(|z.out| + room, |target|);
    if |z.out| > |target| || (input == [] && !finish && upto == |z.out|) then DeflateResult(BufError, z)
    else
      var z' := Deflater(fed, target[..upto], finish, z.memory);
      DeflateResult(if finish && upto == |target| then StreamEnd else Ok, z')
  }

  function StoredInflate(i: Inflater, rest: seq<byte>, room: nat): InflateResult {
    if !i.primed then
      var k := if |i.eaten| == 0 then Min(6, |rest|) else 0;
      InflateResult(NeedDict, k, [], i.(eaten := i.eaten + rest[..k]))
    else
      var data := Decode(i.eaten + rest);
      var left := if |i.made| <= |data| then data[|i.made|..] else [];
      var n := Min(room, |left|);
      InflateResult(if n == |left| then StreamEnd else Ok, |rest|, left[..n],
                    Inflater(i.eaten + rest, i.made + left[..n], true, i.memory))
  }

  function StoredSetDictionary(i: Inflater): Inflater {
    if |i.eaten| == 6 then i.(primed := true) else i
  }

  function StoredPending(z: Deflater): nat {
    var n := |Encode(z.fed)| - |z.out|;
    if n < 0 then 0 else n
  }

  predicate StoredTrack(i: Inflater, rest: seq<byte>, left: seq<byte>) {
    && i.eaten + rest == Encode(i.made + left)
    && (!i.primed ==> i.made == [] && (|i.eaten| == 0 || |i.eaten| == 6))
  }

  lemma {:induction false} StoredTargetGrows(z: Deflater, input: seq<byte>, finish: bool)
    requires z.out <= StoredTarget(z.fed, z.finishing) && (z.finishing ==> finish && input == [])
    ensures z.out <= StoredTarget(z.fed + input, finish)
  {
    if z.finishing {
      assert z.fed + input == z.fed;
    } else {
      BlocksExtend(z.fed, input);
      assert StoredTarget(z.fed, false) <= StoredTarget(z.fed + input, false);
      assert StoredTarget(z.fed + input, false) <= StoredTarget(z.fed + input, true);
    }
  }

  lemma {:induction false} StoredDeflateMeetsLaw(z: Deflater, input: seq<byte>, finish: bool, room: nat)
    requires z.out <= StoredTarget(z.fed, z.finishing)
    requires 0 < room && (z.finishing ==> finish && input == [])
    ensures DeflateStep(StoredRecord(), z, input, finish, room, StoredDeflate(z, input, finish, room))
  {
    StoredTargetGrows(z, input, finish);
    assert input[..|input|] == input && (input == [] ==> z.fed + input == z.fed);
  }

  lemma {:induction false} StoredInflatePrimes(i: Inflater, rest: seq<byte>, left: seq<byte>, room: nat)
    requires StoredTrack(i, rest, left) && !i.primed
    ensures InflateStep(StoredRecord(), i, rest, left, room, StoredInflate(i, rest, room))
  {
    var r := StoredInflate(i, rest, room);
    assert |Encode(left)| >= 15;
    assert (i.eaten + rest[..r.consumed]) + rest[r.consumed..] == i.eaten + rest;
    assert StoredTrack(StoredSetDictionary(r.z), rest[r.consumed..], left);
  }

  lemma {:induction false} StoredInflateDecodes(i: Inflater, rest: seq<byte>, left: seq<byte>, room: nat)
    requires StoredTrack(i, rest, left) && i.primed
    ensures InflateStep(StoredRecord(), i, rest, left, room, StoredInflate(i, rest, room))
  {
    var r := StoredInflate(i, rest, room);
    DecodeInvertsEncode(i.made + left);
    var n := Min(room, |left|);
    assert (i.made + left)[|i.made|..] == left;
    assert (i.eaten + rest) + rest[|rest|..] == i.eaten + rest;
    assert (i.made + left[..n]) + left[n..] == i.made + left;
    assert StoredTrack(r.z, rest[|rest|..], left[n..]);
  }

  function StoredRecord(): Codec {
    Codec(Deflater([], [], false, 0),
          (z: Deflater, input: seq<byte>, finish: bool, room: nat) => StoredDeflate(z, input, finish, room),
          Inflater([], [], false, 0),
          i => StoredSetDictionary(i),
          (i: Inflater, rest: seq<byte>, room: nat) => StoredInflate(i, rest, room),
          (z: Deflater) => z.out <= StoredTarget(z.fed, z.finishing),
          (z: Deflater) => StoredPending(z),
          (packed, data) => packed == Encode(data),
          (i, rest, left) => StoredTrack(i, rest, left))
  }

  /** The laws are satisfiable. */
  ghost function StoredCodec(): (c: Codec)
    ensures Lawful(c)
  {
    var c := StoredRecord();
    assert forall z, input, finish, room: nat | c.Writes(z) && 0 < room && (z.finishing ==> finish && input == []) ::
        DeflateStep(c, z, input, finish, room, c.Deflate(z, input, finish, room)) by {
      forall z, input, finish, room: nat | c.Writes(z) && 0 < room && (z.finishing ==> finish && input == [])
        ensures DeflateStep(c, z, input, finish, room, c.Deflate(z, input, finish, room))
      {
        StoredDeflateMeetsLaw(z, input, finish, room);
      }
    }
    assert forall i, rest, left, room: nat | c.Tracks(i, rest, left) ::
        InflateStep(c, i, rest, left, room, c.Inflate(i, rest, room)) by {
      forall i, rest, left, room: nat | c.Tracks(i, rest, left)
        ensures InflateStep(c, i, rest, left, room, c.Inflate(i, rest, room))
      {
        if i.primed {
          StoredInflateDecodes(i, rest, left, room);
        } else {
          StoredInflatePrimes(i, rest, left, room);
        }
      }
    }
    assert forall packed, data | c.Encodes(packed, data) ::
        packed != [] && c.Tracks(c.SetDictionary(c.inflateInit), packed, data) by {
      forall packed, data | c.Encodes(packed, data)
        ensures packed != [] && c.Tracks(c.SetDictionary(c.inflateInit), packed, data)
      {
        assert [] + packed == packed;
        assert [] + data == data;
      }
    }
    c
  }
}
