/**
 The read loop of XmlReader::parse in src/XmlReader.cpp: what a source's reads become on their way
 to the parser, and when that is the document less its byte order mark (section 6 of RFC 3629).
 */
module Parsing {
  import opened Bytes

  const BUFSIZE: nat := 4096

  const BOM: seq<byte> := [0xEF, 0xBB, 0xBF]

  /**
   libxml2 as far as the loop sees it: whether the latest of the chunks fed so far is rejected, and
   whether a callback has recorded an error by then.
   */
  datatype Parser = Parser(rejects: seq<seq<byte>> -> bool, complains: seq<seq<byte>> -> bool)

  /** One read on its way to the parser: while the mark is looked for, a read of three bytes or more may lose it. */
  function Unmarked(read: seq<byte>, look: bool): seq<byte> {
    if look && |read| >= 3 && BOM <= read then read[3..] else read
  }

  /** What parse() has fed to the parser, and what it returns. */
  datatype Parsed = Parsed(fed: seq<seq<byte>>, ok: bool)

  /** The loop of parse, on the list of non-empty reads that the source will give before one gives nothing. */
  function Feeding(pieces: seq<seq<byte>>, look: bool, fed: seq<seq<byte>>, parser: Parser): Parsed
    decreases |pieces|
  {
    if pieces == [] || Unmarked(pieces[0], look) == [] then Parsed(fed, !parser.complains(fed))
    else
      var fed' := fed + [Unmarked(pieces[0], look)];
      if parser.rejects(fed') then Parsed(fed', false)
      else Feeding(pieces[1..], look && |pieces[0]| < 3, fed', parser)
  }

  /** The chunks that a parser gets that rejects nothing. */
  function Fed(pieces: seq<seq<byte>>, look: bool): seq<seq<byte>>
    decreases |pieces|
  {
    if pieces == [] || Unmarked(pieces[0], look) == [] then []
    else [Unmarked(pieces[0], look)] + Fed(pieces[1..], look && |pieces[0]| < 3)
  }

  /** A parser is fed these chunks in order, all of them unless it rejects one. */
  lemma {:induction false} FeedingIsPrefix(pieces: seq<seq<byte>>, look: bool, fed: seq<seq<byte>>, parser: Parser)
    ensures var r := Feeding(pieces, look, fed, parser);
      && r.fed <= fed + Fed(pieces, look)
      && (r.ok ==> r.fed == fed + Fed(pieces, look))
      && (r.fed != fed + Fed(pieces, look) ==> parser.rejects(r.fed))
    decreases |pieces|
  {
    if pieces != [] && Unmarked(pieces[0], look) != [] {
      var c, rest := Unmarked(pieces[0], look), Fed(pieces[1..], look && |pieces[0]| < 3);
      assert (fed + [c]) + rest == fed + ([c] + rest);
      if !parser.rejects(fed + [c]) {
        FeedingIsPrefix(pieces[1..], look && |pieces[0]| < 3, fed + [c], parser);
      }
    }
  }

  /** The parser rejects no chunk when it is fed these one after the other, and does not complain at the end. */
  predicate Accepts(chunks: seq<seq<byte>>, parser: Parser) {
    (forall k | 0 < k <= |chunks| :: !parser.rejects(chunks[..k])) && !parser.complains(chunks)
  }

  /** parse returns true exactly for a parser that accepts what becomes of the reads. */
  lemma {:induction false} FeedingAccepts(pieces: seq<seq<byte>>, look: bool, fed: seq<seq<byte>>, parser: Parser)
    ensures var chunks := fed + Fed(pieces, look);
      Feeding(pieces, look, fed, parser).ok <==>
        (forall k | |fed| < k <= |chunks| :: !parser.rejects(chunks[..k])) && !parser.complains(chunks)
    decreases |pieces|
  {
    var chunks := fed + Fed(pieces, look);
    if pieces == [] || Unmarked(pieces[0], look) == [] {
      assert chunks == fed;
    } else {
      var c, rest := Unmarked(pieces[0], look), Fed(pieces[1..], look && |pieces[0]| < 3);
      assert chunks == (fed + [c]) + rest && chunks[..|fed| + 1] == fed + [c];
      FeedingAccepts(pieces[1..], look && |pieces[0]| < 3, fed + [c], parser);
    }
  }

  /** The same for a whole parse. */
  lemma {:induction false} ParseAccepts(pieces: seq<seq<byte>>, parser: Parser)
    ensures Feeding(pieces, true, [], parser).ok <==> Accepts(Fed(pieces, true), parser)
  {
    FeedingAccepts(pieces, true, [], parser);
    assert [] + Fed(pieces, true) == Fed(pieces, true);
  }

  // ---- The loop, read by read ------------------------------------------------

  /** Where the loop is after some reads: is the mark still looked for, what has been fed, does it go on. */
  datatype LoopState = LoopState(look: bool, fed: seq<seq<byte>>, stopped: bool)

  function TurnOn(at: LoopState, read: seq<byte>, parser: Parser): LoopState {
    var c := Unmarked(read, at.look);
    if at.stopped then at
    else if c == [] then at.(stopped := true)
    else LoopState(at.look && |read| < 3, at.fed + [c], parser.rejects(at.fed + [c]))
  }

  function After(pieces: seq<seq<byte>>, parser: Parser): LoopState {
    if pieces == [] then LoopState(true, [], false)
    else TurnOn(After(pieces[..|pieces| - 1], parser), pieces[|pieces| - 1], parser)
  }

  /** A loop that has not stopped goes on as if it began there. */
  lemma {:induction false} FeedingAfter(pieces: seq<seq<byte>>, more: seq<seq<byte>>, parser: Parser)
    requires !After(pieces, parser).stopped
    ensures var at := After(pieces, parser);
      Feeding(pieces + more, true, [], parser) == Feeding(more, at.look, at.fed, parser)
    decreases |pieces|
  {
    if pieces == [] {
      assert pieces + more == more;
    } else {
      var n, last := |pieces| - 1, pieces[|pieces| - 1];
      FeedingAfter(pieces[..n], [last] + more, parser);
      assert pieces[..n] + ([last] + more) == pieces + more && ([last] + more)[1..] == more;
    }
  }

  /** The reads after which the loop stops are all it makes, and what it returns is told by them. */
  lemma {:induction false} StoppedFeeding(pieces: seq<seq<byte>>, parser: Parser)
    requires pieces != [] && After(pieces, parser).stopped && !After(pieces[..|pieces| - 1], parser).stopped
    ensures var fed, before := After(pieces, parser).fed, After(pieces[..|pieces| - 1], parser).fed;
      Feeding(pieces, true, [], parser) == Parsed(fed, fed == before && !parser.complains(fed))
  {
    var n, last := |pieces| - 1, pieces[|pieces| - 1];
    var more: seq<seq<byte>> := [last];
    FeedingAfter(pieces[..n], more, parser);
    assert pieces[..n] + more == pieces && |more[1..]| == 0;
  }

  // ---- The byte order mark ------------------------------------------------

  /** Section 6 of RFC 3629: a mark at the very start is not part of the text. */
  function WithoutBom(data: seq<byte>): seq<byte> {
    if BOM <= data then data[3..] else data
  }

  /** All reads together. */
  function Joined(pieces: seq<seq<byte>>): seq<byte> {
    if pieces == [] then [] else pieces[0] + Joined(pieces[1..])
  }

  function Sizes(pieces: seq<seq<byte>>): (r: seq<nat>)
    ensures |r| == |pieces| && forall i | 0 <= i < |r| :: r[i] == |pieces[i]|
  {
    if pieces == [] then [] else [|pieces[0]|] + Sizes(pieces[1..])
  }

  /**
   Enough comes at first to tell whether there is a mark: four bytes, or three that are all there
   is. A document of at most two bytes has none.
   */
  predicate TellsBom(sizes: seq<nat>) {
    sizes == [] || sizes[0] >= 4 || (sizes[0] == 3 && |sizes| == 1) || Sum(sizes) <= 2
  }

  predicate AllSome(sizes: seq<nat>) {
    forall n | n in sizes :: 0 < n
  }

  /** Once the mark is no longer looked for, or cannot show up, everything is fed. */
  lemma {:induction false} FedWhole(pieces: seq<seq<byte>>, look: bool)
    requires AllSome(Sizes(pieces)) && (look ==> Sum(Sizes(pieces)) <= 2)
    ensures Joined(Fed(pieces, look)) == Joined(pieces)
    decreases |pieces|
  {
    if pieces != [] {
      var sizes := Sizes(pieces);
      assert sizes[0] in sizes && sizes[1..] == Sizes(pieces[1..]);
      assert forall n | n in sizes[1..] :: n in sizes;
      FedWhole(pieces[1..], look && |pieces[0]| < 3);
      var rest := Fed(pieces[1..], look && |pieces[0]| < 3);
      assert ([pieces[0]] + rest)[1..] == rest;
    }
  }

  lemma {:induction false} SumIsLength(pieces: seq<seq<byte>>)
    ensures Sum(Sizes(pieces)) == |Joined(pieces)|
  {
    if pieces != [] {
      assert Sizes(pieces)[1..] == Sizes(pieces[1..]);
      SumIsLength(pieces[1..]);
    }
  }

  /** With enough at first, the parser gets the document less its mark, however it is cut after that. */
  lemma {:induction false} BomStripped(pieces: seq<seq<byte>>)
    requires AllSome(Sizes(pieces)) && TellsBom(Sizes(pieces))
    ensures Joined(Fed(pieces, true)) == WithoutBom(Joined(pieces))
  {
    var sizes := Sizes(pieces);
    SumIsLength(pieces);
    if pieces == [] || Sum(sizes) <= 2 {
      FedWhole(pieces, true);
    } else {
      var first, rest := pieces[0], pieces[1..];
      assert sizes[1..] == Sizes(rest) && forall n | n in sizes[1..] :: n in sizes;
      FedWhole(rest, false);
      var c, fed := Unmarked(first, true), Fed(rest, false);
      assert ([c] + fed)[1..] == fed;
      assert BOM <= first + Joined(rest) <==> BOM <= first;
      if BOM <= first {
        assert (first + Joined(rest))[3..] == first[3..] + Joined(rest);
      }
    }
  }

  /** A document cut into reads of given sizes. */
  function CutUp(data: seq<byte>, sizes: seq<nat>): (pieces: seq<seq<byte>>)
    requires |data| == Sum(sizes)
    ensures Sizes(pieces) == sizes
    decreases |sizes|
  {
    if sizes == [] then [] else [data[..sizes[0]]] + CutUp(data[sizes[0]..], sizes[1..])
  }

  lemma {:induction false} CutUpJoins(data: seq<byte>, sizes: seq<nat>)
    requires |data| == Sum(sizes)
    ensures Joined(CutUp(data, sizes)) == data
    decreases |sizes|
  {
    if sizes != [] {
      CutUpJoins(data[sizes[0]..], sizes[1..]);
      var rest := CutUp(data[sizes[0]..], sizes[1..]);
      assert ([data[..sizes[0]]] + rest)[1..] == rest;
    }
  }

  /** A mark and zeros after it. */
  function Marked(n: nat): (data: seq<byte>)
    requires 3 <= n
    ensures |data| == n && BOM <= data
  {
    BOM + seq(n - 3, _ => 0)
  }

  /** Reads of one or two bytes at first leave the mark in; a first read of three followed by more ends the loop. */
  lemma {:induction false} BomLeftIn(sizes: seq<nat>)
    requires AllSome(sizes) && !TellsBom(sizes)
    ensures Sum(sizes) >= 3
    ensures var pieces := CutUp(Marked(Sum(sizes)), sizes);
      Joined(Fed(pieces, true)) != WithoutBom(Joined(pieces))
  {
    var n := Sum(sizes);
    if sizes[0] == 3 {
      assert sizes[1] in sizes;
    }
    assert n >= 3;
    var data := Marked(n);
    var pieces := CutUp(data, sizes);
    CutUpJoins(data, sizes);
    assert pieces[0] == data[..sizes[0]] && sizes[0] in sizes;
    if sizes[0] == 3 {
      assert Unmarked(pieces[0], true) == [] && Fed(pieces, true) == [];
      assert Sum(sizes) == 3 + Sum(sizes[1..]) && Sum(sizes[1..]) >= sizes[1] > 0;
      assert |WithoutBom(data)| > 0;
    } else {
      var c, fed := pieces[0], Fed(pieces[1..], true);
      assert ([c] + fed)[1..] == fed;
      assert Joined(Fed(pieces, true)) == c + Joined(fed);
      assert (c + Joined(fed))[0] == 0xEF;
    }
  }

  /**
   For reads of given sizes the parser gets every document less its mark if and only if the sizes
   are such that the first of them can tell.
   */
  lemma {:induction false} BomExact(sizes: seq<nat>)
    requires AllSome(sizes)
    ensures TellsBom(sizes) <==>
      forall pieces | Sizes(pieces) == sizes :: Joined(Fed(pieces, true)) == WithoutBom(Joined(pieces))
  {
    if TellsBom(sizes) {
      forall pieces | Sizes(pieces) == sizes
        ensures Joined(Fed(pieces, true)) == WithoutBom(Joined(pieces))
      {
        BomStripped(pieces);
      }
    } else {
      BomLeftIn(sizes);
      assert Sizes(CutUp(Marked(Sum(sizes)), sizes)) == sizes;
    }
  }

  // ---- Files and finished cache objects ------------------------------------------------

  /** The reads of a source that gives as much as it is asked for until it ends. */
  function FullReads(data: seq<byte>): (pieces: seq<seq<byte>>)
    decreases |data|
  {
    if data == [] then [] else
      var n := Min(BUFSIZE, |data|);
      [data[..n]] + FullReads(data[n..])
  }

  lemma {:induction false} FullReadsJoin(data: seq<byte>)
    ensures Joined(FullReads(data)) == data && AllSome(Sizes(FullReads(data)))
    ensures |data| <= BUFSIZE && data != [] ==> FullReads(data) == [data]
    decreases |data|
  {
    if data != [] {
      var n := Min(BUFSIZE, |data|);
      var rest := FullReads(data[n..]);
      FullReadsJoin(data[n..]);
      var pieces := [data[..n]] + rest;
      assert pieces[1..] == rest;
      assert Sizes(pieces) == [n] + Sizes(rest);
      assert n == |data| ==> data[..n] == data && data[n..] == [] && FullReads([]) == [];
    }
  }

  /** Every file and every finished cache object is fed without its mark, whatever its length. */
  lemma {:induction false} FilesLoseBom(data: seq<byte>)
    ensures Joined(Fed(FullReads(data), true)) == WithoutBom(data)
  {
    FullReadsJoin(data);
    var pieces := FullReads(data);
    SumIsLength(pieces);
    if data != [] {
      assert Sizes(pieces)[0] == |pieces[0]|;
    }
    BomStripped(pieces);
  }
}
