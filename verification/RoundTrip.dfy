/**
 What the compressed cache is for: whatever was written comes back, for every way of cutting it
 into writes and reads, as often as it is asked for.
 */
module RoundTrip {
  import opened Bytes
  import opened Zlib
  import opened CacheObjects

  /** The content after a series of writeBytes(chunk, size) calls. */
  function WriteAll(c: Content, chunks: seq<seq<byte>>): Content {
    if chunks == [] then c
    else AfterWrite(WriteAll(c, chunks[..|chunks| - 1]), Some(chunks[|chunks| - 1]))
  }

  /** The content after a series of readBytes(size) calls. */
  function ReadAll(c: Content, sizes: seq<nat>): (r: Content)
    requires c.Readable()
    ensures r.Readable()
  {
    if sizes == [] then c else AfterRead(ReadAll(c, sizes[..|sizes| - 1]), sizes[|sizes| - 1])
  }

  /** What these calls gave, put together. */
  function ReadsOf(c: Content, sizes: seq<nat>): seq<byte>
    requires c.Readable()
  {
    if sizes == [] then [] else
      var before := sizes[..|sizes| - 1];
      ReadsOf(c, before) + ReadOut(ReadAll(c, before), sizes[|sizes| - 1])
  }

  /** A finished object holds the concatenation of the writes, whatever it held before. */
  lemma {:induction false} WritesAccumulate(c: Content, chunks: seq<seq<byte>>)
    requires !c.Writing?
    ensures AfterWrite(WriteAll(c, chunks), None) == Stored(Flatten(chunks))
    ensures chunks != [] ==> WriteAll(c, chunks) == Writing(Flatten(chunks))
  {
    if chunks != [] {
      WritesAccumulate(c, chunks[..|chunks| - 1]);
    }
  }

  /** Reads so far and bytes still to come always make up the content. */
  lemma {:induction false} ReadsConserve(c: Content, sizes: seq<nat>)
    requires c.Readable()
    ensures ReadsOf(c, sizes) + ReadAll(c, sizes).Remaining() == c.Remaining()
  {
    if sizes != [] {
      var before, n := sizes[..|sizes| - 1], sizes[|sizes| - 1];
      ReadsConserve(c, before);
      OneReadConserves(ReadAll(c, before), n);
      assert ReadsOf(c, sizes) + ReadAll(c, sizes).Remaining()
          == ReadsOf(c, before) + (ReadOut(ReadAll(c, before), n) + ReadAll(c, sizes).Remaining());
    }
  }

  lemma {:induction false} OneReadConserves(c: Content, n: nat)
    requires c.Readable()
    ensures ReadOut(c, n) + AfterRead(c, n).Remaining() == c.Remaining()
    ensures 0 < n ==> (ReadOut(c, n) == [] <==> c.Remaining() == [])
  {
    if c.Reading? {
      assert c.data[c.pos..][Min(n, |c.data| - c.pos)..] == c.data[Min(c.pos + n, |c.data|)..];
    }
  }

  /** Reading does not change what a later full read, after resetState, will give. */
  lemma {:induction false} ResetRewinds(data: seq<byte>, sizes: seq<nat>)
    ensures AfterReset(ReadAll(Stored(data), sizes)) == Stored(data)
    ensures var c := ReadAll(Stored(data), sizes); c.Stored? || c.Reading?
    ensures ReadAll(Stored(data), sizes).data == data
  {
    if sizes != [] {
      ResetRewinds(data, sizes[..|sizes| - 1]);
    }
  }

  /**
   The round trip. Any writes on a fresh or finished object, then writeBytes(NULL, 0), then
   positive reads up to the first that gives nothing: the reads are the writes, and an empty read
   comes only at the end. After resetState every further series of reads starts over.
   */
  lemma {:induction false} CompressedRoundTrip(before: Content, chunks: seq<seq<byte>>, sizes: seq<nat>,
      again: seq<nat>)
    requires !before.Writing?
    ensures var done := AfterWrite(WriteAll(before, chunks), None);
            && done.Readable()
            && (forall n: nat | 0 < n ::
                  ReadOut(ReadAll(done, sizes), n) == [] <==> ReadsOf(done, sizes) == Flatten(chunks))
            && AfterReset(ReadAll(done, sizes)) == done
            && ReadsOf(AfterReset(ReadAll(done, sizes)), again) <= Flatten(chunks)
  {
    WritesAccumulate(before, chunks);
    var done := Stored(Flatten(chunks));
    ReadsConserve(done, sizes);
    ReadsConserve(done, again);
    ResetRewinds(Flatten(chunks), sizes);
    forall n: nat | 0 < n
      ensures ReadOut(ReadAll(done, sizes), n) == [] <==> ReadsOf(done, sizes) == Flatten(chunks)
    {
      OneReadConserves(ReadAll(done, sizes), n);
    }
  }

  /** The writing half of tests/cachecheck.cpp. */
  method WriteFile(cache: CacheObject, filecont: seq<seq<byte>>)
    requires cache.Valid() && cache.View() == Nothing
    modifies cache
    ensures cache.Valid() && cache.View() == Stored(Flatten(filecont))
  {
    for k := 0 to |filecont|
      invariant cache.Valid()
      invariant cache.View() == if k == 0 then Nothing else Writing(Flatten(filecont[..k]))
    {
      var _ := cache.WriteBytes(Some(filecont[k]));
      assert filecont[..k + 1][..k] == filecont[..k];
    }
    assert filecont[..|filecont|] == filecont;
    var _ := cache.WriteBytes(None);
  }

  /** One readBytes: what it gives comes off the front of what is left, and nothing only at the end. */
  method ReadPiece(cache: CacheObject, buffer: array<byte>, size: nat) returns (res: nat)
    requires cache.Valid() && cache.View().Readable() && 0 < size <= buffer.Length
    modifies cache, buffer
    ensures cache.Valid() && cache.View().Readable() && res <= buffer.Length
    ensures buffer[..res] + cache.View().Remaining() == old(cache.View().Remaining())
    ensures res + |cache.View().Remaining()| == |old(cache.View().Remaining())|
    ensures res == 0 ==> cache.View().Remaining() == []
  {
    ghost var out := ReadOut(cache.View(), size);
    OneReadConserves(cache.View(), size);
    res := cache.ReadBytes(buffer, 0, size);
    assert buffer[0..res] == buffer[..res];
    assert |out + cache.View().Remaining()| == res + |cache.View().Remaining()|;
  }

  /** The reading half: positive reads until one gives nothing. */
  method ReadFile(cache: CacheObject, size: nat) returns (bufcont: seq<byte>)
    requires cache.Valid() && cache.View().Readable() && 0 < size
    modifies cache
    ensures bufcont == old(cache.View().Remaining())
  {
    var buffer := new byte[size];
    bufcont := [];
    ghost var left := cache.View().Remaining();
    var res := 1;
    while res != 0
      invariant cache.Valid() && cache.View().Readable() && cache.View().Remaining() == left
      invariant bufcont + left == old(cache.View().Remaining())
      invariant res == 0 ==> left == []
      decreases |left| + res
    {
      res := ReadPiece(cache, buffer, size);
      var piece := buffer[..res];
      left := cache.View().Remaining();
      Assoc(bufcont, piece, left);
      bufcont := bufcont + piece;
    }
  }

  /** tests/cachecheck.cpp: a file goes through a cache object in pieces and comes back. */
  method CacheCheck(zlib: Zlib, filecont: seq<seq<byte>>, size: nat) returns (bufcont: seq<byte>)
    requires 0 < size
    ensures bufcont == Flatten(filecont)
  {
    var cache := new CacheObject(zlib, "mycache");
    WriteFile(cache, filecont);
    bufcont := ReadFile(cache, size);
  }
}
