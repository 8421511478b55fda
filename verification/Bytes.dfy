/** Bytes, byte strings cut into chunks, and the Option type the other modules share. */
module Bytes {

  type byte = x: int | 0 <= x < 256

  datatype Option<+T> = None | Some(value: T)

  function Min(a: int, b: int): int {
    if a <= b then a else b
  }

  function Sum(sizes: seq<nat>): nat {
    if sizes == [] then 0 else sizes[0] + Sum(sizes[1..])
  }

  lemma {:induction false} SumSnoc(sizes: seq<nat>, n: nat)
    ensures Sum(sizes + [n]) == Sum(sizes) + n
  {
    if sizes == [] {
      assert [n][1..] == [];
    } else {
      assert (sizes + [n])[1..] == sizes[1..] + [n];
      SumSnoc(sizes[1..], n);
    }
  }

  /** The byte string a list of chunks carries. */
  function Flatten(chunks: seq<seq<byte>>): seq<byte> {
    if chunks == [] then [] else Flatten(chunks[..|chunks| - 1]) + chunks[|chunks| - 1]
  }

  lemma {:induction false} FlattenSnoc(chunks: seq<seq<byte>>, chunk: seq<byte>)
    ensures Flatten(chunks + [chunk]) == Flatten(chunks) + chunk
  {
    assert (chunks + [chunk])[..|chunks|] == chunks;
  }

  lemma {:induction false} FlattenConcat(a: seq<seq<byte>>, b: seq<seq<byte>>)
    ensures Flatten(a + b) == Flatten(a) + Flatten(b)
  {
    if b == [] {
      assert a + b == a;
    } else {
      var rest, last := b[..|b| - 1], b[|b| - 1];
      FlattenConcat(a, rest);
      assert a + b == (a + rest) + [last];
      FlattenSnoc(a + rest, last);
    }
  }

  lemma {:induction false} Assoc<T>(a: seq<T>, b: seq<T>, c: seq<T>)
    ensures (a + b) + c == a + (b + c)
  {
  }

  /** A prefix of what follows position i, cut out and cut off. */
  lemma {:induction false} PrefixAt<T>(s: seq<T>, i: nat, p: seq<T>)
    requires i <= |s| && p <= s[i..]
    ensures s[i..i + |p|] == p && s[i..][|p|..] == s[i + |p|..]
  {
    assert s[i..][..|p|] == p;
  }

  /** memset(buffer + at, 0, room), and then `bytes` are written to its start. */
  method Overwrite(buffer: array<byte>, at: nat, room: nat, bytes: seq<byte>)
    requires |bytes| <= room && at + room <= buffer.Length
    modifies buffer
    ensures buffer[at..at + |bytes|] == bytes
    ensures buffer[..at] == old(buffer[..at]) && buffer[at + room..] == old(buffer[at + room..])
  {
    forall k | at <= k < at + room {
      buffer[k] := 0;
    }
    forall k | 0 <= k < |bytes| {
      buffer[at + k] := bytes[k];
    }
    assert forall k | 0 <= k < |bytes| :: buffer[at + k] == bytes[k];
  }
}
