/**
 Tidied passes over documents that come over HTTP: a TidyStream whose source is an HttpStream
 (src/TidyStream.cpp, src/DataStreamHandler.cpp:264-279). The source caches what it reads, the
 TidyStream then caches its tidied copy in the same object, and the tidy flag of that object is set
 and never cleared.
 */
module RemoteTidy {
  import opened Bytes
  import opened Zlib
  import opened CacheObjects
  import opened CacheIndex
  import opened HttpHeaders
  import opened HttpStreams
  import opened HttpSessions
  import opened Lifetimes
  import opened Incidents
  import Documents
  import Parsing

  // ---- What Perform does once the source is gone ------------------------------------------------

  predicate Flagged(a: map<string, Content>, ta: map<string, Tags>, url: string) {
    HasStored(a, url) && url in ta && ta[url].tidied
  }

  /** The tidied document is under the URL, flagged, with the validators of what was there. */
  ghost predicate Rewritten(a: map<string, Content>, ta: map<string, Tags>, url: string, useCache: bool, out: seq<byte>,
      b: map<string, Content>, tb: map<string, Tags>) {
    && url in b && b[url] == Stored(out)
    && url in tb && tb[url] == (if HasStored(a, url) && url in ta then ta[url] else NO_TAGS).(tidied := true)
    && (forall w | w in b && w != url :: w in a && b[w] == a[w])
    && (forall w | w in tb && w != url :: w in ta && tb[w] == ta[w])
    && (forall w | w in a && w != url && (a[w].Writing? || !useCache) :: w in b)
  }

  /** What is given out, and what is cached then: a flagged copy as it is, or the tidied document `out`. */
  ghost predicate Tailed(a: map<string, Content>, ta: map<string, Tags>, url: string, useCache: bool, out: seq<byte>,
      given: seq<byte>, b: map<string, Content>, tb: map<string, Tags>) {
    if Flagged(a, ta, url) then given == a[url].data && b == a && tb == ta
    else
      && given == out
      && if HasStored(a, url) || (useCache && !IsStuck(a, url)) then Rewritten(a, ta, url, useCache, out, b, tb)
         else b == a && tb == ta
  }

  /** The whole of a flagged copy, which is rewound then. */
  method ReadCopy(cache: CacheObject, ghost data: seq<byte>, ghost tags: Tags) returns (given: seq<byte>)
    requires Documents.Playing(cache, data, 0, tags)
    modifies cache
    ensures given == data && Steady(cache, Stored(data)) && TagsOf(cache.headers) == tags
  {
    var buffer := new byte[Parsing.BUFSIZE];
    given := [];
    var n := 1;
    while n != 0
      invariant |given| <= |data| && Documents.Playing(cache, data, |given|, tags) && given == data[..|given|]
      invariant n == 0 ==> |given| == |data|
      decreases |data| - |given|, n
    {
      n := Documents.ReadPlaying(cache, data, |given|, tags, buffer, Parsing.BUFSIZE);
      NextPart(data, |given|, n);
      given := given + buffer[..n];
    }
    cache.ResetState();
  }

  lemma {:induction false} NextPart(data: seq<byte>, i: nat, n: nat)
    requires i + n <= |data|
    ensures data[..i] + data[i..i + n] == data[..i + n]
  {
  }

  lemma {:induction false} OneUpdate<V>(a: map<string, V>, b: map<string, V>, url: string, now: V, mine: bool)
    requires b.Keys == a.Keys && (forall w | w in b && (w != url || !mine) :: w in a && b[w] == a[w])
    requires mine ==> url in b && b[url] == now
    ensures b == if mine then a[url := now] else a
  {
  }

  lemma {:induction false} NoUpdate<V>(a: map<string, V>, url: string)
    requires url in a
    ensures a[url := a[url]] == a
  {
  }

  /** The entries are the same, and the stream's object, if it is among them, has changed as it has. */
  lemma {:induction false} StaysListed(entries: seq<Entry>, url: string, cache: CacheObject, entry: Content, slot: Slot,
      now: Content)
    requires Kept(entries, slot.others, slot.rows) && Ordered(entries)
    requires Placed(entries, slot.others, url, cache, slot.known, entry, slot.rows) && Steady(cache, now)
    ensures Healthy(entries)
    ensures var a, b := Contents(slot.rows), Contents(Listing(entries)); b == if slot.known then a[url := now] else a
    ensures var ta, tb := Validators(slot.rows), Validators(Listing(entries));
      tb == if slot.known then ta[url := TagsOf(cache.headers)] else ta
  {
    var rows, rows', tags := slot.rows, Listing(entries), TagsOf(cache.headers);
    ListingsAgree(entries, rows, entries, slot.others);
    UnaddedKeeps(entries, rows, rows', slot.others, url, cache, now, tags);
    SameKeys(rows);
    SameKeys(rows');
    OneUpdate(Contents(rows), Contents(rows'), url, now, slot.known);
    OneUpdate(Validators(rows), Validators(rows'), url, tags, slot.known);
    OthersSteady(entries, url, cache, slot);
  }

  lemma {:induction false} OthersSteady(entries: seq<Entry>, url: string, cache: CacheObject, slot: Slot)
    requires Kept(entries, slot.others, slot.rows) && Steady(cache, cache.View())
    requires forall e | e in entries :: e.item in slot.others || e == Entry(url, cache)
    ensures Healthy(entries)
  {
    forall e | e in entries
      ensures Steady(e.item, e.item.View())
    {
      if e.item in slot.others {
        var i :| 0 <= i < |entries| && entries[i] == e;
        assert Holds(entries[i].item, slot.rows[i]);
      }
    }
  }

  /** The copy goes into the index: what that makes of it. */
  lemma {:induction false} CopyListed(entries: seq<Entry>, url: string, cache: CacheObject, entry: Content, slot: Slot,
      out: seq<byte>, after: seq<Entry>)
    requires Kept(entries, slot.others, slot.rows) && Ordered(entries) && Ordered(after)
    requires Placed(entries, slot.others, url, cache, slot.known, entry, slot.rows) && Steady(cache, Stored(out))
    requires if IsStuck(Contents(slot.rows), url) then after == entries else Added(entries, slot.rows, url, cache,
      after)
    requires TagsOf(cache.headers) == TagsAt(slot.known, url, slot.rows).(tidied := true)
    ensures Healthy(after)
    ensures var a, ta, b, tb := Contents(slot.rows), Validators(slot.rows), Contents(Listing(after)),
      Validators(Listing(after));
      if IsStuck(a, url) then b == a && tb == ta else Rewritten(a, ta, url, true, out, b, tb)
  {
    GoneSettles(entries, url, cache, entry, slot, Store, false, out, after);
    GoneHealthy(entries, url, cache, entry, slot, Store, false, out, after);
    SameKeys(slot.rows);
    SameKeys(Listing(after));
    AddedRewrites(Contents(slot.rows), Validators(slot.rows), url, slot.known, out, TagsOf(cache.headers),
      Contents(Listing(after)), Validators(Listing(after)));
  }

  lemma {:induction false} AddedRewrites(a: map<string, Content>, ta: map<string, Tags>, url: string, known: bool,
      out: seq<byte>, tags: Tags, b: map<string, Content>, tb: map<string, Tags>)
    requires ta.Keys == a.Keys && tb.Keys == b.Keys && known == HasStored(a, url)
    requires Settled(a, url, known, Store, false, out, b)
    requires Retags(ta, url, known || !IsStuck(a, url), tags, tb)
    requires tags == (if known then ta[url] else NO_TAGS).(tidied := true)
    ensures if IsStuck(a, url) then b == a && tb == ta else Rewritten(a, ta, url, true, out, b, tb)
  {
    if IsStuck(a, url) {
      OneUpdate(ta, tb, url, tags, false);
    }
  }

  /** A found object that is written to in place. */
  lemma {:induction false} UpdateRewrites(a: map<string, Content>, ta: map<string, Tags>, url: string, out: seq<byte>)
    requires ta.Keys == a.Keys
    ensures HasStored(a, url) ==> Rewritten(a, ta, url, false, out, a[url := Stored(out)],
      ta[url := ta[url].(tidied := true)])
  {
  }

  /** The tidied document in an object that was found, or is new. */
  method StoreCopy(handler: DataStreamHandler, url: string, cache: CacheObject, useCache: bool, out: seq<byte>,
      ghost slot: Slot)
    requires Attached(handler, url, cache, cache.View(), slot) && cache.Valid()
      && (cache.View().Nothing? || cache.View().Stored?)
    requires TagsOf(cache.headers) == TagsAt(slot.known, url, slot.rows)
      && !Flagged(Contents(slot.rows), Validators(slot.rows), url)
    modifies cache, handler`HttpCache, handler`live
    ensures handler.Valid() && Healthy(handler.HttpCache) && handler.made == old(handler.made)
    ensures Tailed(Contents(slot.rows), Validators(slot.rows), url, useCache, out, out,
                   Contents(Listing(handler.HttpCache)), Validators(Listing(handler.HttpCache)))
    ensures |handler.Loose()| == |slot.lost| + if slot.known || useCache then 0 else 1
  {
    ghost var entries, entry := handler.HttpCache, cache.View();
    Documents.StoreTidied(cache, out);
    if useCache {
      AddAttached(handler, url, cache, entry, slot);
      CopyListed(entries, url, cache, entry, slot, out, handler.HttpCache);
    } else {
      StaysListed(entries, url, cache, entry, slot, Stored(out));
      SameKeys(slot.rows);
      UpdateRewrites(Contents(slot.rows), Validators(slot.rows), url, out);
      assert |slot.lost + {cache}| == |slot.lost| + 1;
    }
  }

  /** A flagged copy is given out. */
  method UseCopy(handler: DataStreamHandler, url: string, cache: CacheObject,
      ghost slot: Slot) returns (given: seq<byte>)
    requires Attached(handler, url, cache, cache.View(), slot) && cache.Valid() && cache.View().Stored?
    requires TagsOf(cache.headers) == TagsAt(slot.known, url, slot.rows) && slot.known && cache.headers.bTidyFlag
    modifies cache
    ensures handler.Valid() && Healthy(handler.HttpCache)
    ensures Tailed(Contents(slot.rows), Validators(slot.rows), url, true, given, given,
                   Contents(Listing(handler.HttpCache)), Validators(Listing(handler.HttpCache)))
    ensures Flagged(Contents(slot.rows), Validators(slot.rows), url) && handler.Loose() == slot.lost
  {
    ghost var entries, entry, tags := handler.HttpCache, cache.View(), TagsOf(cache.headers);
    SameKeys(slot.rows);
    given := ReadCopy(cache, entry.data, tags);
    StaysListed(entries, url, cache, entry, slot, entry);
    NoUpdate(Contents(slot.rows), url);
    NoUpdate(Validators(slot.rows), url);
  }

  /** Perform, from the lookup on, and what is read of the stream after it. */
  method TidyTail(handler: DataStreamHandler, url: string, useCache: bool, out: seq<byte>) returns (given: seq<byte>)
    requires handler.Valid() && Healthy(handler.HttpCache)
    modifies handler, handler.made
    ensures handler.Valid() && Healthy(handler.HttpCache) && handler.OnlyNew()
    ensures Tailed(old(Contents(Listing(handler.HttpCache))), old(Validators(Listing(handler.HttpCache))), url,
      useCache, out, given,
                   Contents(Listing(handler.HttpCache)), Validators(Listing(handler.HttpCache)))
    ensures |handler.Loose()| == |old(handler.Loose())|
      + if old(HasStored(Contents(Listing(handler.HttpCache)), url)) || useCache then 0 else 1
  {
    ghost var rows := Listing(handler.HttpCache);
    KeptAtFirst(handler.HttpCache);
    var cache, known; ghost var slot;
    cache, known, slot := FindOrAllocate(handler, url, rows);
    SameKeys(rows);
    if known && cache.headers.bTidyFlag {
      given := UseCopy(handler, url, cache, slot);
    } else {
      StoreCopy(handler, url, cache, useCache, out, slot);
      given := out;
    }
  }

  // ---- Visits ------------------------------------------------

  /**
   A plain lifetime of an HttpStream, or a tidied pass: the lifetime of its source, what is cached
   after that, and what the pass is given.
   */
  datatype Visit =
    | Plain(log: SessionLog)
    | Tidied(log: SessionLog, useCache: bool, given: seq<byte>, mid: map<string, Content>, tmid: map<string, Tags>)

  /** A visit as a step of contents and validators. */
  ghost predicate VisitStep(tidy: seq<byte> -> seq<byte>, a: map<string, Content>, ta: map<string, Tags>, v: Visit,
      b: map<string, Content>, tb: map<string, Tags>) {
    && ta.Keys == a.Keys && tb.Keys == b.Keys
    && match v
    case Plain(log) => SessionStep(a, log, b) && TagStep(a, ta, log, tb)
    case Tidied(log, useCache, given, mid, tmid) =>
      && log.use && (log.ended || log.threw)
      && SessionStep(a, log, mid) && TagStep(a, ta, log, tmid) && tmid.Keys == mid.Keys
      && Tailed(mid, tmid, log.url, useCache, tidy(log.out), given, b, tb)
  }

  /** How many cache objects a visit loses: its own, when it hears of an unsolicited 304,
      and a copy that is not handed over. */
  ghost function LostIn(v: Visit): nat {
    (if Leaks(v.log) then 1 else 0)
    + if v.Tidied? && !HasStored(v.mid, v.log.url) && !v.useCache then 1 else 0
  }

  /** What parse returns after a lifetime whose reads went this way: an exception is caught, and is a failure. */
  function ParseResult(log: SessionLog, parser: Parsing.Parser): (ok: bool)
    ensures ok <==> !log.threw && Parsing.Accepts(Parsing.Fed(log.pieces, true), parser)
  {
    Parsing.ParseAccepts(log.pieces, parser);
    if log.threw then false else Parsing.Feeding(log.pieces, true, [], parser).ok
  }

  /**
   parse on a TidyStream over an HttpStream, up to the end: the source, on which caching is always
   on, is read until nothing comes; what it throws is taken for its end.
   */
  method TidiedPass(handler: DataStreamHandler, url: string, useCache: bool, script: seq<Burst>, resp: Response,
      tidy: seq<byte> -> seq<byte>) returns (log: SessionLog, given: seq<byte>, ghost v: Visit)
    requires handler.Valid() && Healthy(handler.HttpCache) && Plays(script, resp)
    requires |url| < SIZE_T - 1 && !Documents.PassesThrough(url)
    modifies handler, handler.made
    ensures handler.Valid() && Healthy(handler.HttpCache) && handler.OnlyNew()
    ensures v.Tidied? && v.log == log && v.useCache == useCache && v.given == given
    ensures Follows(log, url, true, script, resp, ToEnd(4096))
    ensures |handler.Loose()| == |old(handler.Loose())| + LostIn(v)
    ensures VisitStep(tidy, old(Contents(Listing(handler.HttpCache))), old(Validators(Listing(handler.HttpCache))), v,
                      Contents(Listing(handler.HttpCache)), Validators(Listing(handler.HttpCache)))
  {
    SameKeys(Listing(handler.HttpCache));
    log := Session(handler, url, true, script, resp, ToEnd(4096));
    ghost var mid, tmid := Contents(Listing(handler.HttpCache)), Validators(Listing(handler.HttpCache));
    SameKeys(Listing(handler.HttpCache));
    given := TidyTail(handler, url, useCache, tidy(log.out));
    v := Tidied(log, useCache, given, mid, tmid);
    SameKeys(Listing(handler.HttpCache));
  }

  // ---- parseHtml over HTTP ------------------------------------------------

  /** An entry that is found after a tidied pass holds what the pass was given; when there is one. */
  lemma {:induction false} TailFound(a: map<string, Content>, ta: map<string, Tags>, url: string, useCache: bool,
      out: seq<byte>, given: seq<byte>, b: map<string, Content>, tb: map<string, Tags>)
    requires Tailed(a, ta, url, useCache, out, given, b, tb)
    ensures HasStored(b, url) ==> b[url].data == given
    ensures HasStored(b, url) <==> HasStored(a, url) || (useCache && !IsStuck(a, url))
  {
  }

  /**
   The last pass of parseHtml over HTTP, read to its end, after a tidied pass: what it gets is what
   the tidied pass was given if and only if it is answered 304, with caching on, and finds an entry,
   or the answer happens to be the same bytes.
   */
  lemma {:induction false} RemoteLastPass(tidy: seq<byte> -> seq<byte>, a: map<string, Content>, ta: map<string, Tags>,
      v: Visit, b: map<string, Content>, tb: map<string, Tags>, last: SessionLog, c: map<string, Content>)
    requires v.Tidied? && VisitStep(tidy, a, ta, v, b, tb) && SessionStep(b, last, c)
    requires last.url == v.log.url && last.ended
    ensures last.out == v.given <==>
      if last.code != 304 then last.body == v.given
      else (last.use && (HasStored(v.mid, last.url) || (v.useCache && !IsStuck(v.mid, last.url)))) || v.given == []
  {
    TailFound(v.mid, v.tmid, v.log.url, v.useCache, tidy(v.log.out), v.given, b, tb);
  }

  /** How a request is answered. */
  datatype Answer = Answer(script: seq<Burst>, resp: Response)

  ghost predicate Fits(a: Answer) {
    Plays(a.script, a.resp)
  }

  datatype Stage = Stage(contents: map<string, Content>, tags: map<string, Tags>)

  ghost function StageOf(handler: DataStreamHandler): Stage
    reads handler, handler.Items()
  {
    Stage(Contents(Listing(handler.HttpCache)), Validators(Listing(handler.HttpCache)))
  }

  ghost predicate StageStep(tidy: seq<byte> -> seq<byte>, s: Stage, v: Visit, t: Stage) {
    VisitStep(tidy, s.contents, s.tags, v, t.contents, t.tags)
  }

  /** A plain lifetime as a visit. */
  method PlainVisit(handler: DataStreamHandler, url: string, useCache: bool, a: Answer, plan: Plan,
      ghost tidy: seq<byte> -> seq<byte>) returns (log: SessionLog)
    requires handler.Valid() && Healthy(handler.HttpCache) && Fits(a) && Sensible(plan)
    modifies handler, handler.made
    ensures handler.Valid() && Healthy(handler.HttpCache) && handler.OnlyNew()
    ensures Follows(log, url, useCache, a.script, a.resp, plan)
    ensures StageStep(tidy, old(StageOf(handler)), Plain(log), StageOf(handler))
    ensures |handler.Loose()| == |old(handler.Loose())| + LostIn(Plain(log))
  {
    SameKeys(Listing(handler.HttpCache));
    log := Session(handler, url, useCache, a.script, a.resp, plan);
    SameKeys(Listing(handler.HttpCache));
  }

  /** The passes of parseHtml: the raw one, the tidied one with what it was given, the last one;
      and what is returned. */
  datatype Html = Html(ok: bool, raw: SessionLog, tidied: Option<SessionLog>, given: seq<byte>,
      last: Option<SessionLog>)

  /** The visits of parseHtml, and what is cached between them. */
  datatype Passes = Passes(s0: Stage, s1: Stage, v: Visit, s2: Stage, s3: Stage)

  ghost function LostOver(h: Html, p: Passes): nat {
    LostIn(Plain(h.raw)) + (if h.tidied.Some? then LostIn(p.v) else 0)
    + if h.last.Some? then LostIn(Plain(h.last.value)) else 0
  }

  /** The passes as steps of the cache. */
  ghost predicate Passed(tidy: seq<byte> -> seq<byte>, url: string, useCache: bool, h: Html, p: Passes) {
    && StageStep(tidy, p.s0, Plain(h.raw), p.s1) && h.raw.url == url && h.raw.use == useCache
    && (if h.tidied.Some?
        then
          && p.v.Tidied? && p.v.log == h.tidied.value && p.v.log.url == url && p.v.useCache == useCache
          && p.v.given == h.given && StageStep(tidy, p.s1, p.v, p.s2)
        else p.s2 == p.s1)
    && (if h.last.Some?
        then h.last.value.url == url && h.last.value.use == useCache && StageStep(tidy, p.s2, Plain(h.last.value), p.s3)
        else p.s3 == p.s2)
  }

  /**
   How the passes are judged: a tidied pass is made exactly when the first one failed, the last one
   exactly when the document was accepted, raw or else tidied, and parseHtml returns what that one does.
   A pass succeeds exactly when no read threw and the parser accepts the chunks that became of the reads.
   */
  predicate Judged(h: Html, first: Parsing.Parser, second: Parsing.Parser, last: Parsing.Parser, handlerOk: bool) {
    && (h.tidied.Some? <==> h.raw.threw || !Parsing.Accepts(Parsing.Fed(h.raw.pieces, true), first))
    && (h.last.Some? <==>
          handlerOk && (h.tidied.Some? ==> Parsing.Accepts(Parsing.Fed(Parsing.FullReads(h.given), true), second)))
    && (h.ok <==>
          h.last.Some? && !h.last.value.threw && Parsing.Accepts(Parsing.Fed(h.last.value.pieces, true), last))
  }

  /**
   parseHtml on a remote document: a pass to see whether it is accepted, if not a tidied pass, and
   then a pass for the content handler.
   */
  method ParseHtml(handler: DataStreamHandler, url: string, useCache: bool, tidy: seq<byte> -> seq<byte>,
      answers: (Answer, Answer, Answer), first: Parsing.Parser, second: Parsing.Parser, last: Parsing.Parser,
      handlerOk: bool)
    returns (h: Html, ghost p: Passes)
    requires handler.Valid() && Healthy(handler.HttpCache) && |url| < SIZE_T - 1 && !Documents.PassesThrough(url)
    requires Fits(answers.0) && Fits(answers.1) && Fits(answers.2)
    modifies handler, handler.made
    ensures handler.Valid() && Healthy(handler.HttpCache)
    ensures Passed(tidy, url, useCache, h, p) && p.s0 == old(StageOf(handler)) && p.s3 == StageOf(handler)
    ensures Follows(h.raw, url, useCache, answers.0.script, answers.0.resp, Parse(first))
    ensures Judged(h, first, second, last, handlerOk)
    ensures h.tidied.Some? ==> Follows(h.tidied.value, url, true, answers.1.script, answers.1.resp, ToEnd(4096))
    ensures h.last.Some? ==> Follows(h.last.value, url, useCache, answers.2.script, answers.2.resp, Parse(last))
    ensures |handler.Loose()| == |old(handler.Loose())| + LostOver(h, p)
  {
    ghost var s0 := StageOf(handler);
    var raw := PlainVisit(handler, url, useCache, answers.0, Parse(first), tidy);
    ghost var s1 := StageOf(handler);
    h, p := Html(false, raw, None, [], None), Passes(s0, s1, Plain(raw), s1, s1);
    var accepted := ParseResult(raw, first);
    if !accepted {
      var log, given; ghost var v;
      log, given, v := TidiedPass(handler, url, useCache, answers.1.script, answers.1.resp, tidy);
      h, p := Html(false, raw, Some(log), given, None), Passes(s0, s1, v, StageOf(handler), StageOf(handler));
      Parsing.ParseAccepts(Parsing.FullReads(given), second);
      accepted := Parsing.Feeding(Parsing.FullReads(given), true, [], second).ok;
    }
    if accepted && handlerOk {
      var log := PlainVisit(handler, url, useCache, answers.2, Parse(last), tidy);
      h, p := h.(ok := ParseResult(log, last), last := Some(log)), p.(s3 := StageOf(handler));
    }
  }

  // ---- The flag over runs ------------------------------------------------

  ghost predicate VisitAt(tidy: seq<byte> -> seq<byte>, past: seq<Stage>, visits: seq<Visit>, i: nat) {
    i < |visits| && i + 1 < |past| ==>
      VisitStep(tidy, past[i].contents, past[i].tags, visits[i], past[i + 1].contents, past[i + 1].tags)
  }

  /** past[i] is what is cached before visits[i]. */
  ghost predicate VisitRun(tidy: seq<byte> -> seq<byte>, past: seq<Stage>, visits: seq<Visit>) {
    |past| == |visits| + 1 && forall i: nat :: VisitAt(tidy, past, visits, i)
  }

  predicate FlagAt(past: seq<Stage>, i: nat, url: string) {
    i < |past| && Flagged(past[i].contents, past[i].tags, url)
  }

  predicate StoredAt(past: seq<Stage>, i: nat, url: string) {
    i < |past| && HasStored(past[i].contents, url)
  }

  /** What was written last under the URL, before visit k, came out of tidy. */
  ghost predicate MadeByTidy(visits: seq<Visit>, k: nat, url: string)
    requires k <= |visits|
  {
    k > 0 &&
    var v := visits[k - 1];
    if v.log.url != url then MadeByTidy(visits, k - 1, url)
    else if v.Tidied? && !Flagged(v.mid, v.tmid, url) then true
    else !Stores(v.log) && MadeByTidy(visits, k - 1, url)
  }

  /** A 200 that is taken in full into a flagged entry. */
  ghost predicate Muddles(past: seq<Stage>, visits: seq<Visit>, i: nat, url: string) {
    i < |visits| && visits[i].log.url == url && Stores(visits[i].log) && FlagAt(past, i, url)
  }

  /** No header line touches the flag. */
  lemma {:induction false} LeftFlag(log: SessionLog, t: Tags)
    requires forall line | line in log.lines :: HeaderLine(line)
    ensures TagsLeft(log, t).tidied == t.tidied
  {
    UnmovedExactly(t, log.lines);
  }

  /** The flag after a lifetime: an entry keeps it, a new one does not have it. */
  lemma {:induction false} SessionFlag(a: map<string, Content>, ta: map<string, Tags>, log: SessionLog,
      b: map<string, Content>, tb: map<string, Tags>, url: string)
    requires SessionStep(a, log, b) && TagStep(a, ta, log, tb) && ta.Keys == a.Keys && tb.Keys == b.Keys
    ensures HasStored(a, url) && HasStored(b, url) ==> Flagged(b, tb, url) == Flagged(a, ta, url)
    ensures !HasStored(a, url) ==> !Flagged(b, tb, url)
  {
    LeftFlag(log, if log.known then ta[log.url] else NO_TAGS);
  }

  /** What one visit does to a stored entry, its flag, and where its content comes from. */
  lemma {:induction false} FlagStep(tidy: seq<byte> -> seq<byte>, past: seq<Stage>, visits: seq<Visit>, k: nat,
      url: string)
    requires VisitRun(tidy, past, visits) && k < |visits| && StoredAt(past, k, url) && StoredAt(past, k + 1, url)
    ensures visits[k].log.url != url ==> FlagAt(past, k + 1, url) == FlagAt(past, k, url)
    ensures visits[k].log.url == url && visits[k].Plain? ==> FlagAt(past, k + 1, url) == FlagAt(past, k, url)
    ensures visits[k].log.url == url && visits[k].Tidied? ==>
      FlagAt(past, k + 1, url) && Flagged(visits[k].mid, visits[k].tmid, url) == FlagAt(past, k, url)
  {
    assert VisitAt(tidy, past, visits, k);
    var v, a, b := visits[k], past[k], past[k + 1];
    match v
    case Plain(log) => SessionFlag(a.contents, a.tags, log, b.contents, b.tags, url);
    case Tidied(log, _, _, mid, tmid) => SessionFlag(a.contents, a.tags, log, mid, tmid, url);
  }

  /**
   When the flag is true of the content. While an entry stays in the cache, its flag is set on what
   did not come out of tidy if and only if a 200 was taken into it when it was flagged.
   */
  lemma {:induction false} FlagLies(tidy: seq<byte> -> seq<byte>, past: seq<Stage>, visits: seq<Visit>, s: nat, k: nat,
      url: string)
    requires VisitRun(tidy, past, visits) && s <= k <= |visits| && forall i | s <= i <= k :: StoredAt(past, i, url)
    requires FlagAt(past, s, url) ==> MadeByTidy(visits, s, url)
    ensures FlagAt(past, k, url) && !MadeByTidy(visits, k, url) <==> exists i | s <= i < k :: Muddles(past, visits,
      i, url)
    decreases k
  {
    if s < k {
      FlagLies(tidy, past, visits, s, k - 1, url);
      assert StoredAt(past, k - 1, url) && StoredAt(past, k, url);
      FlagStep(tidy, past, visits, k - 1, url);
      if Muddles(past, visits, k - 1, url) {
        assert FlagAt(past, k, url) && !MadeByTidy(visits, k, url);
      }
    }
  }

  /** A tidied pass whose source stores something in a flagged entry is given that, as it came. */
  lemma {:induction false} TidiedPassGivesRaw(tidy: seq<byte> -> seq<byte>, a: map<string, Content>,
      ta: map<string, Tags>, v: Visit, b: map<string, Content>, tb: map<string, Tags>)
    requires v.Tidied? && VisitStep(tidy, a, ta, v, b, tb) && Flagged(a, ta, v.log.url)
    ensures Stores(v.log) ==> v.given == v.log.got && HasStored(b, v.log.url) && b[v.log.url].data == v.log.got
    ensures v.log.code == 304 && v.log.ended && !Stores(v.log) ==> v.given == a[v.log.url].data == v.log.out
  {
    SessionFlag(a, ta, v.log, v.mid, v.tmid, v.log.url);
  }

  /**
   A tidied pass that finds no flagged entry gives, tidied, whatever its source gave: nothing, or a
   part, when it failed. That is cached, and flagged, and overwrites what was there, if and only if
   the entry is not stuck and the source stores something, or it does not break off a refresh and
   either found an entry or caching is on.
   */
  lemma {:induction false} PartIsCached(tidy: seq<byte> -> seq<byte>, a: map<string, Content>, ta: map<string, Tags>,
      v: Visit, b: map<string, Content>, tb: map<string, Tags>)
    requires v.Tidied? && VisitStep(tidy, a, ta, v, b, tb) && !Flagged(a, ta, v.log.url)
    ensures v.given == tidy(v.log.out)
    ensures var url := v.log.url; HasStored(b, url) ==> b[url] == Stored(v.given) && Flagged(b, tb, url)
    ensures HasStored(b, v.log.url) <==>
      !IsStuck(a, v.log.url) && (Stores(v.log) || (!Abandons(v.log) && (v.log.known || v.useCache)))
  {
    SessionFlag(a, ta, v.log, v.mid, v.tmid, v.log.url);
    TailFound(v.mid, v.tmid, v.log.url, v.useCache, tidy(v.log.out), v.given, b, tb);
  }

  // ---- Any series of visits ------------------------------------------------

  /** What a visit is up against. */
  datatype VisitJob = PlainJob(url: string, useCache: bool, a: Answer, plan: Plan)
                    | TidiedJob(url: string, useCache: bool, a: Answer)

  ghost predicate Feasible(job: VisitJob) {
    Fits(job.a) && match job
    case PlainJob(_, _, _, plan) => Sensible(plan)
    case TidiedJob(url, _, _) => |url| < SIZE_T - 1 && !Documents.PassesThrough(url)
  }

  /** A visit is what the job says. */
  ghost predicate Does(v: Visit, job: VisitJob) {
    match job
    case PlainJob(url, useCache, a, plan) => v.Plain? && Follows(v.log, url, useCache, a.script, a.resp, plan)
    case TidiedJob(url, useCache, a) =>
      v.Tidied? && v.useCache == useCache && Follows(v.log, url, true, a.script, a.resp, ToEnd(4096))
  }

  ghost predicate AllDo(visits: seq<Visit>, jobs: seq<VisitJob>) {
    |visits| <= |jobs| && forall i | 0 <= i < |visits| :: Does(visits[i], jobs[i])
  }

  ghost function LostBy(visits: seq<Visit>): nat {
    if visits == [] then 0 else LostBy(visits[..|visits| - 1]) + LostIn(visits[|visits| - 1])
  }

  lemma {:induction false} VisitSnoc(tidy: seq<byte> -> seq<byte>, past: seq<Stage>, visits: seq<Visit>, v: Visit,
      s: Stage, jobs: seq<VisitJob>)
    requires VisitRun(tidy, past, visits) && StageStep(tidy, past[|visits|], v, s)
    requires AllDo(visits, jobs) && |visits| < |jobs| && Does(v, jobs[|visits|])
    ensures VisitRun(tidy, past + [s], visits + [v]) && (past + [s])[|visits + [v]|] == s
    ensures AllDo(visits + [v], jobs) && LostBy(visits + [v]) == LostBy(visits) + LostIn(v)
  {
    forall i: nat
      ensures VisitAt(tidy, past + [s], visits + [v], i)
    {
      assert VisitAt(tidy, past, visits, i);
    }
    assert (visits + [v])[..|visits|] == visits;
  }

  /** The handler after some visits. */
  ghost predicate Visited(tidy: seq<byte> -> seq<byte>, handler: DataStreamHandler, past: seq<Stage>,
      visits: seq<Visit>)
    reads handler, handler.Items()
  {
    && handler.Valid() && Healthy(handler.HttpCache)
    && VisitRun(tidy, past, visits) && past[0] == Stage(map[], map[]) && past[|visits|] == StageOf(handler)
    && |handler.Loose()| == LostBy(visits)
  }

  method MakeVisit(handler: DataStreamHandler, job: VisitJob, tidy: seq<byte> -> seq<byte>) returns (ghost v: Visit)
    requires handler.Valid() && Healthy(handler.HttpCache) && Feasible(job)
    modifies handler, handler.made
    ensures handler.Valid() && Healthy(handler.HttpCache) && handler.OnlyNew()
    ensures Does(v, job) && StageStep(tidy, old(StageOf(handler)), v, StageOf(handler))
    ensures |handler.Loose()| == |old(handler.Loose())| + LostIn(v)
  {
    match job
    case PlainJob(url, useCache, a, plan) =>
      var log := PlainVisit(handler, url, useCache, a, plan, tidy);
      v := Plain(log);
    case TidiedJob(url, useCache, a) =>
      var log, given;
      log, given, v := TidiedPass(handler, url, useCache, a.script, a.resp, tidy);
  }

  method NextVisit(handler: DataStreamHandler, jobs: seq<VisitJob>, tidy: seq<byte> -> seq<byte>, k: nat,
      ghost past: seq<Stage>, ghost visits: seq<Visit>)
    returns (ghost past': seq<Stage>, ghost visits': seq<Visit>)
    requires Visited(tidy, handler, past, visits) && AllDo(visits, jobs) && k == |visits| < |jobs| && Feasible(jobs[k])
    modifies handler, handler.made
    ensures Visited(tidy, handler, past', visits') && handler.OnlyNew()
    ensures |visits'| == k + 1 && AllDo(visits', jobs)
  {
    ghost var v := MakeVisit(handler, jobs[k], tidy);
    ghost var s := StageOf(handler);
    VisitSnoc(tidy, past, visits, v, s, jobs);
    past', visits' := past + [s], visits + [v];
  }

  method VisitAll(handler: DataStreamHandler, jobs: seq<VisitJob>, tidy: seq<byte> -> seq<byte>)
    returns (ghost past: seq<Stage>, ghost visits: seq<Visit>)
    requires handler.Valid() && handler.HttpCache == [] && handler.Loose() == {} && handler.made == {}
    requires forall job | job in jobs :: Feasible(job)
    modifies handler
    ensures Visited(tidy, handler, past, visits) && |visits| == |jobs| && AllDo(visits, jobs)
  {
    past, visits := [Stage(map[], map[])], [];
    for k := 0 to |jobs|
      invariant Visited(tidy, handler, past, visits) && handler.OnlyNew()
      invariant |visits| == k && AllDo(visits, jobs)
    {
      assert Feasible(jobs[k]);
      past, visits := NextVisit(handler, jobs, tidy, k, past, visits);
    }
  }

  /** Any series of visits on a new handler is a run; at its end exactly the lost objects are left over. */
  method RunVisits(zlib: Zlib, jobs: seq<VisitJob>, tidy: seq<byte> -> seq<byte>)
    returns (ghost past: seq<Stage>, ghost visits: seq<Visit>, ghost left: set<CacheObject>)
    requires forall job | job in jobs :: Feasible(job)
    ensures VisitRun(tidy, past, visits) && past[0] == Stage(map[], map[])
    ensures |visits| == |jobs| && AllDo(visits, jobs) && |left| == LostBy(visits)
  {
    var handler := new DataStreamHandler(zlib);
    past, visits := VisitAll(handler, jobs, tidy);
    handler.Clear();
    left := handler.live;
    assert handler.Items() == {} && left == handler.Loose();
  }

  // ---- A document that changes ------------------------------------------------

  lemma {:induction false} TwoTidiedPasses(tidy: seq<byte> -> seq<byte>, s: Stage, v: Visit, t: Stage, w: Visit,
      u: Stage)
    requires v.Tidied? && StageStep(tidy, s, v, t) && URL !in s.contents
    requires w.Tidied? && StageStep(tidy, t, w, u)
    requires Follows(v.log, URL, true, PlayOut(Full("a", [1])), Full("a", [1]), ToEnd(4096))
    requires Follows(w.log, URL, true, PlayOut(Full("b", [2])), Full("b", [2]), ToEnd(4096))
    ensures v.given == tidy([1]) && w.given == [2]
  {
    TakenToEnd(v.log, "a", [1]);
    TakenToEnd(w.log, "b", [2]);
    TidiedThenRaw(tidy, s, v, t, w, u);
  }

  /** A tidied pass over an answer that is taken, into a new entry, and one over another such answer. */
  lemma {:induction false} TidiedThenRaw(tidy: seq<byte> -> seq<byte>, s: Stage, v: Visit, t: Stage, w: Visit, u: Stage)
    requires v.Tidied? && StageStep(tidy, s, v, t) && v.log.url !in s.contents
    requires w.Tidied? && StageStep(tidy, t, w, u) && w.log.url == v.log.url
    requires Takes(v.log) && Takes(w.log)
    ensures v.given == tidy(v.log.body) && w.given == w.log.body
  {
    assert w.log.got == w.log.body;
    PartIsCached(tidy, s.contents, s.tags, v, t.contents, t.tags);
    TidiedPassGivesRaw(tidy, t.contents, t.tags, w, u.contents, u.tags);
  }

  /** A tidied pass over URL as a visit. */
  method TidiedVisit(handler: DataStreamHandler, resp: Response, tidy: seq<byte> -> seq<byte>)
    returns (given: seq<byte>, ghost v: Visit)
    requires handler.Valid() && Healthy(handler.HttpCache) && Plays(PlayOut(resp), resp)
    modifies handler, handler.made
    ensures handler.Valid() && Healthy(handler.HttpCache) && handler.OnlyNew()
    ensures v.Tidied? && v.useCache && v.given == given && StageStep(tidy, old(StageOf(handler)), v, StageOf(handler))
    ensures Follows(v.log, URL, true, PlayOut(resp), resp, ToEnd(4096))
  {
    UrlIsTidied();
    var log;
    log, given, v := TidiedPass(handler, URL, true, PlayOut(resp), resp, tidy);
  }

  /** Two tidied passes on a new handler. */
  method PassTwice(zlib: Zlib, one: Response, two: Response, tidy: seq<byte> -> seq<byte>)
    returns (first: seq<byte>, second: seq<byte>, ghost s: Stage, ghost v: Visit, ghost t: Stage, ghost w: Visit,
        ghost u: Stage)
    requires Plays(PlayOut(one), one) && Plays(PlayOut(two), two)
    ensures v.Tidied? && v.useCache && StageStep(tidy, s, v, t) && URL !in s.contents
    ensures w.Tidied? && w.useCache && StageStep(tidy, t, w, u)
    ensures Follows(v.log, URL, true, PlayOut(one), one, ToEnd(4096))
      && Follows(w.log, URL, true, PlayOut(two), two, ToEnd(4096))
    ensures first == v.given && second == w.given
  {
    var handler := new DataStreamHandler(zlib);
    s := StageOf(handler);
    first, v := TidiedVisit(handler, one, tidy);
    t := StageOf(handler);
    second, w := TidiedVisit(handler, two, tidy);
    u := StageOf(handler);
  }

  /** The document has changed in between: the second pass is not tidied. */
  method ChangedDocument(zlib: Zlib, tidy: seq<byte> -> seq<byte>) returns (first: seq<byte>, second: seq<byte>)
    ensures first == tidy([1]) && second == [2]
  {
    FullPlays("a", [1]);
    FullPlays("b", [2]);
    ghost var s, v, t, w, u;
    first, second, s, v, t, w, u := PassTwice(zlib, Full("a", [1]), Full("b", [2]), tidy);
    TwoTidiedPasses(tidy, s, v, t, w, u);
  }

  /** A tidied pass that is answered 404: what is cached, and given out, is nothing, tidied. */
  method MissingDocument(zlib: Zlib, tidy: seq<byte> -> seq<byte>) returns (given: seq<byte>, ghost after: Stage)
    ensures given == tidy([])
    ensures URL in after.contents && after.contents[URL] == Stored(tidy([])) && Flagged(after.contents, after.tags, URL)
  {
    OthersAreWellFormed("b");
    PlayOutPlays(Missing("b"));
    ghost var s, v, w, u;
    var second;
    given, second, s, v, after, w, u := PassTwice(zlib, Missing("b"), Missing("b"), tidy);
    assert v.log.out == [];
    PartIsCached(tidy, s.contents, s.tags, v, after.contents, after.tags);
  }

  /** A plain lifetime and a tidied pass on a new handler. */
  method PlainThenTidied(zlib: Zlib, one: Response, two: Response, tidy: seq<byte> -> seq<byte>)
    returns (given: seq<byte>, ghost s: Stage, ghost log: SessionLog, ghost t: Stage, ghost v: Visit, ghost u: Stage)
    requires Plays(PlayOut(one), one) && Plays(PlayOut(two), two)
    ensures StageStep(tidy, s, Plain(log), t) && URL !in s.contents
    ensures Follows(log, URL, true, PlayOut(one), one, ToEnd(4096))
    ensures v.Tidied? && StageStep(tidy, t, v, u) && v.given == given
    ensures Follows(v.log, URL, true, PlayOut(two), two, ToEnd(4096))
  {
    var handler := new DataStreamHandler(zlib);
    s := StageOf(handler);
    log := PlainVisit(handler, URL, true, Answer(PlayOut(one), one), ToEnd(4096), tidy);
    t := StageOf(handler);
    given, v := TidiedVisit(handler, two, tidy);
    u := StageOf(handler);
  }

  /** A tidied pass that is answered 404 overwrites a good copy of the document. */
  method MissingOverwrites(zlib: Zlib, tidy: seq<byte> -> seq<byte>)
    returns (given: seq<byte>, ghost before: Stage, ghost after: Stage)
    ensures given == tidy([])
    ensures HasStored(before.contents, URL) && before.contents[URL] == Stored([1])
    ensures HasStored(after.contents, URL) && after.contents[URL] == Stored(tidy([]))
    ensures Flagged(after.contents, after.tags, URL)
  {
    FullPlays("a", [1]);
    OthersAreWellFormed("b");
    PlayOutPlays(Missing("b"));
    ghost var s, log, v;
    given, s, log, before, v, after := PlainThenTidied(zlib, Full("a", [1]), Missing("b"), tidy);
    StoredThenMissing(tidy, s, log, before, v, after);
  }

  lemma {:induction false} StoredThenMissing(tidy: seq<byte> -> seq<byte>, s: Stage, log: SessionLog, t: Stage,
      v: Visit, u: Stage)
    requires StageStep(tidy, s, Plain(log), t) && URL !in s.contents
    requires Follows(log, URL, true, PlayOut(Full("a", [1])), Full("a", [1]), ToEnd(4096))
    requires v.Tidied? && StageStep(tidy, t, v, u)
    requires Follows(v.log, URL, true, PlayOut(Missing("b")), Missing("b"), ToEnd(4096))
    ensures HasStored(t.contents, URL) && t.contents[URL] == Stored([1])
    ensures v.given == tidy([])
    ensures HasStored(u.contents, URL) && u.contents[URL] == Stored(tidy([])) && Flagged(u.contents, u.tags, URL)
  {
    TakenToEnd(log, "a", [1]);
    MissingToEnd(v.log, "b");
    StoredThenNothing(tidy, s, log, t, v, u);
  }

  lemma {:induction false} StoredThenNothing(tidy: seq<byte> -> seq<byte>, s: Stage, log: SessionLog, t: Stage,
      v: Visit, u: Stage)
    requires StageStep(tidy, s, Plain(log), t) && URL !in s.contents && log.url == URL && Takes(log) && log.body == [1]
    requires v.Tidied? && StageStep(tidy, t, v, u) && v.log.url == URL
    requires v.log.out == [] && !Stores(v.log) && !Abandons(v.log)
    ensures HasStored(t.contents, URL) && t.contents[URL] == Stored([1])
    ensures v.given == tidy([])
    ensures HasStored(u.contents, URL) && u.contents[URL] == Stored(tidy([])) && Flagged(u.contents, u.tags, URL)
  {
    assert log.got == log.body;
    SessionFlag(s.contents, s.tags, log, t.contents, t.tags, URL);
    PartIsCached(tidy, t.contents, t.tags, v, u.contents, u.tags);
  }

  lemma {:induction false} MissingToEnd(log: SessionLog, tag: string)
    requires '\0' !in tag && Honest(log) && Follows(log, URL, true, PlayOut(Missing(tag)), Missing(tag), ToEnd(4096))
    ensures log.url == URL && log.out == [] && !Stores(log) && !Abandons(log)
  {
    OthersAreWellFormed(tag);
    PlayOutPlays(Missing(tag));
  }

  // ---- parseHtml on a document that is sent again -------------------------------------------------------

  const REJECT: Parsing.Parser := Parsing.Parser(_ => true, _ => false)
  const ACCEPT: Parsing.Parser := Parsing.Parser(_ => false, _ => false)

  lemma {:induction false} RejectedRaw(log: SessionLog)
    requires Honest(log) && Follows(log, URL, true, PlayOut(Full("a", [1])), Full("a", [1]), Parse(REJECT))
    ensures !Parsing.Accepts(Parsing.Fed(log.pieces, true), REJECT) && !log.threw
  {
    FullPlays("a", [1]);
    NeverNothing(log.pieces, log.ended);
    HitsWithin(log.pieces, 0);
    FirstPiece(log.pieces);
    var chunks := Parsing.Fed(log.pieces, true);
    assert Parsing.Unmarked(log.pieces[0], true) == log.pieces[0] != [];
    assert |chunks| > 0 && REJECT.rejects(chunks[..1]);
  }

  lemma {:induction false} FirstPiece(pieces: seq<seq<byte>>)
    requires pieces != []
    ensures |pieces[0]| <= |Flatten(pieces)| && |pieces[|pieces| - 1]| <= |Flatten(pieces)|
    ensures pieces[0] == [] ==> Hits(pieces, 0)
  {
    if |pieces| > 1 {
      FirstPiece(pieces[..|pieces| - 1]);
    } else {
      assert pieces[..0] == [];
    }
  }

  /** A parser that accepts everything is fed all of a document of one byte. */
  lemma {:induction false} ReadForAccept(log: SessionLog)
    requires Honest(log) && Follows(log, URL, true, PlayOut(Full("a", [1])), Full("a", [1]), Parse(ACCEPT))
    ensures log.url == URL && log.ended && log.out == [1]
  {
    FullPlays("a", [1]);
    FirstPiece(log.pieces);
  }

  /** parseHtml on a new handler, all of whose requests are answered the same. */
  method ParseThrice(zlib: Zlib, resp: Response, tidy: seq<byte> -> seq<byte>, first: Parsing.Parser,
      second: Parsing.Parser, last: Parsing.Parser) returns (h: Html, ghost p: Passes)
    requires Plays(PlayOut(resp), resp)
    ensures Passed(tidy, URL, true, h, p) && URL !in p.s0.contents && Judged(h, first, second, last, true)
    ensures Follows(h.raw, URL, true, PlayOut(resp), resp, Parse(first))
    ensures h.tidied.Some? ==> Follows(h.tidied.value, URL, true, PlayOut(resp), resp, ToEnd(4096))
    ensures h.last.Some? ==> Follows(h.last.value, URL, true, PlayOut(resp), resp, Parse(last))
  {
    UrlIsTidied();
    var handler := new DataStreamHandler(zlib);
    var a := Answer(PlayOut(resp), resp);
    h, p := ParseHtml(handler, URL, true, tidy, (a, a, a), first, second, last, true);
  }

  /**
   The document is answered 200 three times. The tidied one is accepted, and the content handler gets
   the raw one, which was rejected.
   */
  method ResentDocument(zlib: Zlib, tidy: seq<byte> -> seq<byte>) returns (h: Html)
    ensures h.ok && h.tidied.Some? && h.last.Some? && h.given == tidy([1]) && h.last.value.out == [1]
  {
    FullPlays("a", [1]);
    ghost var p;
    h, p := ParseThrice(zlib, Full("a", [1]), tidy, REJECT, ACCEPT, ACCEPT);
    ResentPasses(tidy, h, p);
  }

  lemma {:induction false} ResentPasses(tidy: seq<byte> -> seq<byte>, h: Html, p: Passes)
    requires Passed(tidy, URL, true, h, p) && URL !in p.s0.contents
    requires Follows(h.raw, URL, true, PlayOut(Full("a", [1])), Full("a", [1]), Parse(REJECT))
    requires Judged(h, REJECT, ACCEPT, ACCEPT, true)
    requires h.tidied.Some? ==>
      Follows(h.tidied.value, URL, true, PlayOut(Full("a", [1])), Full("a", [1]), ToEnd(4096))
    requires h.last.Some? ==>
      Follows(h.last.value, URL, true, PlayOut(Full("a", [1])), Full("a", [1]), Parse(ACCEPT))
    ensures h.ok && h.tidied.Some? && h.last.Some? && h.given == tidy([1]) && h.last.value.out == [1]
  {
    RejectedRaw(h.raw);
    TakenToEnd(h.tidied.value, "a", [1]);
    GivenTidied(tidy, h, p);
    ReadForAccept(h.last.value);
  }

  /** Reads of a document that is gone give nothing but the exception, however the parser takes it. */
  lemma {:induction false} MissingThrows(log: SessionLog, tag: string, parser: Parsing.Parser)
    requires '\0' !in tag && Honest(log)
    requires Follows(log, URL, true, PlayOut(Missing(tag)), Missing(tag), Parse(parser))
    ensures log.url == URL && log.threw && log.error == NOT_FOUND && log.out == []
  {
    OthersAreWellFormed(tag);
    PlayOutPlays(Missing(tag));
    ZeroHits(log.pieces);
  }

  /**
   The document is gone, and every request is answered 404. parse catches the exception of the first
   pass, and a tidied pass is made; what tidy makes of nothing is accepted, and the last pass throws
   too: parseHtml fails.
   */
  method MissingThrice(zlib: Zlib, tidy: seq<byte> -> seq<byte>) returns (h: Html)
    ensures h.raw.threw && h.raw.error == NOT_FOUND && h.tidied.Some? && h.given == tidy([])
    ensures h.last.Some? && h.last.value.threw && h.last.value.pieces == [] && !h.ok
  {
    OthersAreWellFormed("b");
    PlayOutPlays(Missing("b"));
    ghost var p;
    h, p := ParseThrice(zlib, Missing("b"), tidy, ACCEPT, ACCEPT, ACCEPT);
    MissingPasses(tidy, h, p);
  }

  lemma {:induction false} MissingPasses(tidy: seq<byte> -> seq<byte>, h: Html, p: Passes)
    requires Passed(tidy, URL, true, h, p) && URL !in p.s0.contents
    requires Follows(h.raw, URL, true, PlayOut(Missing("b")), Missing("b"), Parse(ACCEPT))
    requires Judged(h, ACCEPT, ACCEPT, ACCEPT, true)
    requires h.tidied.Some? ==> Follows(h.tidied.value, URL, true, PlayOut(Missing("b")), Missing("b"), ToEnd(4096))
    requires h.last.Some? ==>
      Follows(h.last.value, URL, true, PlayOut(Missing("b")), Missing("b"), Parse(ACCEPT))
    ensures h.raw.threw && h.raw.error == NOT_FOUND && h.tidied.Some? && h.given == tidy([])
    ensures h.last.Some? && h.last.value.threw && h.last.value.pieces == []
  {
    MissingThrows(h.raw, "b", ACCEPT);
    MissingGiven(tidy, h, p);
    MissingThrows(h.last.value, "b", ACCEPT);
    NothingFlat(h.last.value.pieces, h.last.value.ended);
  }

  lemma {:induction false} NothingFlat(pieces: seq<seq<byte>>, ended: bool)
    requires Stepwise(pieces, ended) && Flatten(pieces) == [] && !ended
    ensures pieces == []
  {
    ZeroHits(pieces);
  }

  lemma {:induction false} MissingGiven(tidy: seq<byte> -> seq<byte>, h: Html, p: Passes)
    requires Passed(tidy, URL, true, h, p) && URL !in p.s0.contents && h.tidied.Some?
    requires Follows(h.tidied.value, URL, true, PlayOut(Missing("b")), Missing("b"), ToEnd(4096))
    ensures h.given == tidy([])
  {
    MissingToEnd(h.tidied.value, "b");
    GivenTidied(tidy, h, p);
  }

  /** On a new handler the tidied pass is given what its source gave, tidied. */
  lemma {:induction false} GivenTidied(tidy: seq<byte> -> seq<byte>, h: Html, p: Passes)
    requires Passed(tidy, URL, true, h, p) && URL !in p.s0.contents && h.tidied.Some?
    ensures h.given == tidy(h.tidied.value.out)
  {
    SessionFlag(p.s0.contents, p.s0.tags, h.raw, p.s1.contents, p.s1.tags, URL);
    PartIsCached(tidy, p.s1.contents, p.s1.tags, p.v, p.s2.contents, p.s2.tags);
  }

  const COMPLAIN: Parsing.Parser := Parsing.Parser(_ => false, _ => true)

  /** When the tidied document is not accepted either there is no last pass, whatever tidy does. */
  method RejectedTwice(zlib: Zlib, tidy: seq<byte> -> seq<byte>) returns (h: Html)
    ensures !h.raw.threw && h.tidied.Some? && h.last.None? && !h.ok
  {
    FullPlays("a", [1]);
    ghost var p;
    h, p := ParseThrice(zlib, Full("a", [1]), tidy, REJECT, COMPLAIN, ACCEPT);
    RejectedRaw(h.raw);
  }

  lemma {:induction false} UrlIsTidied()
    ensures |URL| < SIZE_T - 1 && !Documents.PassesThrough(URL)
  {
    Documents.PassesThroughIs(URL);
    assert URL[|URL| - 5] == 't';
  }

  lemma {:induction false} TakenToEnd(log: SessionLog, tag: string, body: seq<byte>)
    requires '\0' !in tag && |body| < SIZE_T && Honest(log)
    requires Follows(log, URL, true, PlayOut(Full(tag, body)), Full(tag, body), ToEnd(4096))
    ensures log.url == URL && Takes(log) && log.body == body && log.out == body
  {
    FullPlays(tag, body);
  }
}
