/**
 One stream lifetime from newStream to destructor, with the 200/304 protocol of the cache on top
 (sections 2.2, 2.3, 3.2, 3.3 and 4.1 of RFC 7232).
 */
module HttpSessions {
  import opened Bytes
  import opened CacheObjects
  import opened HttpHeaders
  import opened HttpStreams
  import opened RoundTrip
  import Parsing

  // ---- Responses and the scripts that play them ------------------------------------------------

  /**
   An answer without redirect. `lines` are all the header lines that libcurl passes on, of interim
   answers and of a proxy's answer to CONNECT too; `code` is the code of the last answer. Whether
   some line says 200, and what length is announced, is up to the server.
   */
  datatype Response = Response(code: int, lines: seq<string>, body: seq<byte>)

  predicate WellFormed(resp: Response) {
    (forall line | line in resp.lines :: HeaderLine(line)) && resp.code != 301 && resp.code != 302
  }

  /** The callback at i: on the one stream there is, a header line as long as there are any, then body. */
  predicate CallAt(ds: seq<Delivery>, i: nat, lines: seq<string>) {
    i < |ds| ==> ds[i].to == 0 && if i < |lines| then ds[i].event == Header(lines[i]) else ds[i].event.Body?
  }

  ghost predicate LinesFirst(ds: seq<Delivery>, lines: seq<string>) {
    forall i: nat :: CallAt(ds, i, lines)
  }

  /** Callbacks that play a response, or a part of it. */
  ghost predicate Shaped(ds: seq<Delivery>, resp: Response) {
    LinesFirst(ds, resp.lines) && BodyTo(0, ds) <= resp.body && (resp.code == 304 ==> |ds| <= |resp.lines|)
  }

  ghost predicate Complete(ds: seq<Delivery>, resp: Response) {
    |resp.lines| <= |ds| && BodyTo(0, ds) == resp.body
  }

  ghost predicate ShapedUpTo(script: seq<Burst>, k: nat, resp: Response) {
    k <= |script| ==> Shaped(Deliveries(script[..k]), resp)
  }

  /** If a transfer ends well in burst k, it is with the code of the response, and all of it is there. */
  ghost predicate EndsRight(script: seq<Burst>, k: nat, resp: Response) {
    k < |script| && Done(CURLE_OK) in script[k].messages ==>
      CodeOf(script[k], 0) == resp.code && Complete(Deliveries(script[..k + 1]), resp)
  }

  /** If nothing runs any more after burst k, the burst says how the transfer ended. */
  ghost predicate EndsOpenly(script: seq<Burst>, k: nat) {
    k < |script| && script[k].running == 0 ==> exists m | m in script[k].messages :: m.Done?
  }

  /**
   The script plays the response, all of it or, when the transfer fails, a part. A transfer that
   ended well has delivered everything and reports the code of the response; when nothing runs any
   more the transfer has reported how it ended.
   */
  ghost predicate Plays(script: seq<Burst>, resp: Response) {
    && WellFormed(resp)
    && (forall k: nat :: ShapedUpTo(script, k, resp))
    && (forall k: nat :: EndsRight(script, k, resp))
    && (forall k: nat :: EndsOpenly(script, k))
    && script != [] && script[|script| - 1].running == 0
  }

  // ---- What a stream knows after a part of the script ------------------------------------------------

  function Initial(tags: Tags): HeaderState {
    HeaderState(false, 0, true, tags, false)
  }

  lemma {:induction false} FirstPrefix(ds: seq<Delivery>, lines: seq<string>, n: nat)
    requires LinesFirst(ds, lines) && n <= |ds|
    ensures LinesFirst(ds[..n], lines)
  {
    forall i: nat
      ensures CallAt(ds[..n], i, lines)
    {
      assert CallAt(ds, i, lines);
    }
  }

  lemma {:induction false} ShapedPrefix(ds: seq<Delivery>, resp: Response)
    requires Shaped(ds, resp) && ds != []
    ensures Shaped(ds[..|ds| - 1], resp)
  {
    var n := |ds| - 1;
    FirstPrefix(ds, resp.lines, n);
    assert BodyTo(0, ds) == BodyTo(0, ds[..n]) + if ds[n].to == 0 && ds[n].event.Body? then ds[n].event.data else [];
  }

  lemma {:induction false} LinesOfShaped(ds: seq<Delivery>, resp: Response)
    requires Shaped(ds, resp) && WellFormed(resp)
    ensures LinesOk(ds)
  {
    forall d | d in ds && d.event.Header?
      ensures HeaderLine(d.event.line)
    {
      var i :| 0 <= i < |ds| && ds[i] == d;
      assert CallAt(ds, i, resp.lines) && resp.lines[i] in resp.lines;
    }
  }

  /** The 200 flag and the length, after a shaped series of callbacks, are those of the lines seen. */
  lemma {:induction false} HeaderSeen(ds: seq<Delivery>, lines: seq<string>, use: bool, tags: Tags)
    requires LinesFirst(ds, lines) && LinesOk(ds)
    ensures var n, st := Min(|ds|, |lines|), AfterEvents(0, Initial(tags), use, ds);
      st.store == Says(lines[..n]) && st.length == Announced(lines[..n])
    decreases |ds|
  {
    if ds != [] {
      var n := |ds| - 1;
      FirstPrefix(ds, lines, n);
      HeaderSeen(ds[..n], lines, use, tags);
      assert CallAt(ds, n, lines) && ds[n] in ds;
      if n < |lines| {
        LineMore(lines, n);
      }
    }
  }

  lemma {:induction false} NoBodyYet(ds: seq<Delivery>, resp: Response)
    requires Shaped(ds, resp)
    ensures |ds| <= |resp.lines| ==> BodyTo(0, ds) == []
    decreases |ds|
  {
    if ds != [] {
      ShapedPrefix(ds, resp);
      NoBodyYet(ds[..|ds| - 1], resp);
      assert CallAt(ds, |ds| - 1, resp.lines);
    }
  }

  /** How many header lines have come. */
  function LinesSeen(script: seq<Burst>, rest: seq<Burst>, resp: Response): (n: nat)
    ensures n <= |resp.lines|
  {
    Min(|Deliveries(Used(script, rest))|, |resp.lines|)
  }

  /** A body chunk has come. */
  predicate Chunked(script: seq<Burst>, rest: seq<Burst>, resp: Response) {
    |resp.lines| < |Deliveries(Used(script, rest))|
  }

  /** The validators, after a shaped series of callbacks, are those of the lines seen. */
  lemma {:induction false} TagsSeen(ds: seq<Delivery>, lines: seq<string>, use: bool, tags: Tags)
    requires LinesFirst(ds, lines) && LinesOk(ds)
    ensures var n := Min(|ds|, |lines|);
      && (forall line | line in lines[..n] :: HeaderLine(line))
      && AfterEvents(0, Initial(tags), use, ds).tags == if use then TagsAll(tags, lines[..n]) else tags
    decreases |ds|
  {
    if ds != [] {
      var n := |ds| - 1;
      FirstPrefix(ds, lines, n);
      TagsSeen(ds[..n], lines, use, tags);
      assert CallAt(ds, n, lines) && ds[n] in ds;
      if n < |lines| {
        assert lines[..n + 1] == lines[..n] + [lines[n]] && lines[..n + 1][..n] == lines[..n];
      }
    }
  }

  /** Once all lines have come, the flag is that of all lines. */
  lemma {:induction false} FlagIs(ds: seq<Delivery>, resp: Response, use: bool, tags: Tags)
    requires Shaped(ds, resp) && LinesOk(ds) && |resp.lines| <= |ds|
    ensures AfterEvents(0, Initial(tags), use, ds).store == Says(resp.lines)
    ensures AfterEvents(0, Initial(tags), use, ds).length == Announced(resp.lines)
  {
    HeaderSeen(ds, resp.lines, use, tags);
    assert resp.lines[..|resp.lines|] == resp.lines;
  }

  /** If a line says 200 every chunk is written to the cache, because the lines came first. */
  lemma {:induction false} WholeKept(ds: seq<Delivery>, resp: Response, use: bool, tags: Tags)
    requires Shaped(ds, resp) && LinesOk(ds) && use && Says(resp.lines)
    ensures AfterEvents(0, Initial(tags), use, ds).whole
    decreases |ds|
  {
    if ds != [] {
      var n := |ds| - 1;
      ShapedPrefix(ds, resp);
      WholeKept(ds[..n], resp, use, tags);
      assert CallAt(ds, n, resp.lines);
      if |resp.lines| <= n {
        FlagIs(ds[..n], resp, use, tags);
      }
    }
  }

  /** The cache object is written to as soon as a chunk comes, if a line said 200, unless caching is off. */
  lemma {:induction false} BeganSeen(ds: seq<Delivery>, resp: Response, use: bool, tags: Tags)
    requires Shaped(ds, resp) && LinesOk(ds)
    ensures AfterEvents(0, Initial(tags), use, ds).began <==> use && Says(resp.lines) && |resp.lines| < |ds|
    decreases |ds|
  {
    if ds != [] {
      var n := |ds| - 1;
      ShapedPrefix(ds, resp);
      BeganSeen(ds[..n], resp, use, tags);
      assert CallAt(ds, n, resp.lines);
      if |resp.lines| <= n {
        FlagIs(ds[..n], resp, use, tags);
      }
    }
  }

  /** Header state and body bytes after a shaped series of callbacks. */
  lemma {:induction false} StateFits(ds: seq<Delivery>, resp: Response, use: bool, tags: Tags)
    requires Shaped(ds, resp) && WellFormed(resp)
    ensures LinesOk(ds)
    ensures var n, st := Min(|ds|, |resp.lines|), AfterEvents(0, Initial(tags), use, ds);
      && st.store == Says(resp.lines[..n]) && st.length == Announced(resp.lines[..n])
      && (|resp.lines| <= |ds| ==> st.store == Says(resp.lines) && st.length == Announced(resp.lines))
      && (use && Says(resp.lines) ==> st.whole)
      && (st.began <==> use && Says(resp.lines) && |resp.lines| < |ds|)
    ensures |ds| <= |resp.lines| ==> BodyTo(0, ds) == []
  {
    LinesOfShaped(ds, resp);
    HeaderSeen(ds, resp.lines, use, tags);
    NoBodyYet(ds, resp);
    BeganSeen(ds, resp, use, tags);
    if |resp.lines| <= |ds| {
      FlagIs(ds, resp, use, tags);
    }
    if use && Says(resp.lines) {
      WholeKept(ds, resp, use, tags);
    }
  }

  // ---- A script used up in several calls ------------------------------------------------

  lemma {:induction false} UsedConcat(a: seq<Burst>, b: seq<Burst>)
    ensures Deliveries(a + b) == Deliveries(a) + Deliveries(b)
    ensures forall i :: ErrorOf(a + b, i) == if ErrorOf(a, i).Some? then ErrorOf(a, i) else ErrorOf(b, i)
    ensures forall i :: Seen304(a + b, i) == (Seen304(a, i) || Seen304(b, i))
  {
    if b == [] {
      assert a + b == a;
    } else {
      var n, last := |b| - 1, b[|b| - 1];
      UsedConcat(a, b[..n]);
      assert (a + b)[..|a + b| - 1] == a + b[..n] && (a + b)[|a + b| - 1] == last;
      assert Deliveries(a) + (Deliveries(b[..n]) + last.deliveries)
          == (Deliveries(a) + Deliveries(b[..n])) + last.deliveries;
    }
  }

  lemma {:induction false} UsedTwice(script: seq<Burst>, rest0: seq<Burst>, rest1: seq<Burst>)
    requires |rest1| <= |rest0| <= |script|
    requires rest0 == script[|script| - |rest0|..] && rest1 == rest0[|rest0| - |rest1|..]
    ensures rest1 == script[|script| - |rest1|..]
    ensures Used(script, rest1) == Used(script, rest0) + Used(rest0, rest1)
  {
  }

  lemma {:induction false} NoErrorIn(ms: seq<Message>, code: int, m: Message)
    requires FirstError(ms, code) == None && m in ms
    ensures MessageError(m, code) == None
    ensures m == Done(CURLE_OK) && code == 304 ==> Says304(ms, code)
  {
    if m != ms[0] {
      NoErrorIn(ms[1..], code, m);
    }
  }

  /** A 304 is only seen when the response is one, and has come in full. */
  lemma {:induction false} Seen304Means(script: seq<Burst>, k: nat, resp: Response)
    requires Plays(script, resp) && k <= |script| && Seen304(script[..k], 0)
    ensures resp.code == 304 && |resp.lines| <= |Deliveries(script[..k])|
    decreases k
  {
    assert script[..k][..k - 1] == script[..k - 1];
    DeliveriesSnoc(script, k - 1);
    assert EndsRight(script, k - 1, resp);
    if Seen304(script[..k - 1], 0) {
      Seen304Means(script, k - 1, resp);
    } else {
      var ms := script[k - 1].messages;
      Says304Means(ms, CodeOf(script[k - 1], 0));
      assert Done(CURLE_OK) in ms;
    }
  }

  lemma {:induction false} Says304Means(ms: seq<Message>, code: int)
    requires Says304(ms, code)
    ensures Done(CURLE_OK) in ms && code == 304
  {
    if !(ms[0] == Done(CURLE_OK) && code == 304) {
      Says304Means(ms[1..], code);
    }
  }

  /** When nothing runs any more and nothing went wrong, the whole response is there. */
  lemma {:induction false} RunDownCompletes(script: seq<Burst>, k: nat, resp: Response)
    requires Plays(script, resp) && 0 < k <= |script| && script[k - 1].running == 0
    requires ErrorOf(script[..k], 0) == None
    ensures Complete(Deliveries(script[..k]), resp) && resp.code in {0, 200, 304}
    ensures resp.code == 304 ==> Seen304(script[..k], 0)
  {
    var ms := script[k - 1].messages;
    assert script[..k][..k - 1] == script[..k - 1];
    var code := CodeOf(script[k - 1], 0);
    assert FirstError(ms, code) == None;
    assert EndsOpenly(script, k - 1) && EndsRight(script, k - 1, resp);
    var m :| m in ms && m.Done?;
    NoErrorIn(ms, code, m);
    assert m == Done(CURLE_OK);
  }

  /** Some transfer does not end well, whatever the response codes say. */
  ghost predicate Breaks(script: seq<Burst>) {
    exists k: nat, m | k < |script| && m in script[k].messages :: m.Done? && m.result != CURLE_OK
  }

  lemma {:induction false} FirstErrorIs(ms: seq<Message>, code: int) returns (m: Message)
    requires FirstError(ms, code).Some?
    ensures m in ms && FirstError(ms, code) == MessageError(m, code)
  {
    m := ms[0];
    if MessageError(m, code).None? {
      m := FirstErrorIs(ms[1..], code);
    }
  }

  /** The error for an answer with this code: access is denied, or there is nothing to be had. */
  predicate Refuses(code: int, error: ErrorCode) {
    && code !in {0, 200, 304}
    && (error == ACCESS_DENIED <==> code in {401, 403, 407}) && (error == ACCESS_DENIED || error == NOT_FOUND)
  }

  /** A read that throws because of the response, not of the transfer, has seen all header lines. */
  lemma {:induction false} ErrorSeesLines(script: seq<Burst>, k: nat, resp: Response)
    requires Plays(script, resp) && k <= |script| && ErrorOf(script[..k], 0).Some? && !Breaks(script)
    ensures |resp.lines| <= |Deliveries(script[..k])|
    ensures Refuses(resp.code, ErrorOf(script[..k], 0).value)
    decreases k
  {
    assert script[..k][..k - 1] == script[..k - 1];
    DeliveriesSnoc(script, k - 1);
    assert EndsRight(script, k - 1, resp);
    if ErrorOf(script[..k - 1], 0).Some? {
      ErrorSeesLines(script, k - 1, resp);
    } else {
      var ms, code := script[k - 1].messages, CodeOf(script[k - 1], 0);
      var m := FirstErrorIs(ms, code);
      assert m.Done? && m in script[k - 1].messages;
      assert m == Done(CURLE_OK);
    }
  }

  lemma {:induction false} ErrorInPart(script: seq<Burst>, k: nat)
    requires k <= |script| && ErrorOf(script[..k], 0).Some?
    ensures ErrorOf(script, 0) == ErrorOf(script[..k], 0)
    decreases |script| - k
  {
    if k < |script| {
      assert script[..k + 1][..k] == script[..k];
      ErrorInPart(script, k + 1);
    } else {
      assert script[..k] == script;
    }
  }

  // ---- The stream during its lifetime ------------------------------------------------

  /** The stream has seen exactly the used part of the script. */
  ghost predicate InSync(script: seq<Burst>, rest: seq<Burst>, use: bool, v: Snap) {
    && |rest| <= |script| && rest == script[|script| - |rest|..]
    && var ds := Deliveries(Used(script, rest));
    && LinesOk(ds)
    && v.received == BodyTo(0, ds) && v.delivered <= v.received
    && v.st == AfterEvents(0, Initial(v.entryTags), use, ds) && v.use == use
    && v.fromCache == Seen304(Used(script, rest), 0)
    && v.coherent
  }

  /** What holds of the stream at every point of its lifetime. */
  ghost predicate Core(script: seq<Burst>, rest: seq<Burst>, resp: Response, use: bool, v: Snap) {
    && InSync(script, rest, use, v)
    && (!(use && v.fromCache) ==> v.served == [])
  }

  /** The bytes of the object that was there when the stream was opened. */
  function DataOf(entry: Content): seq<byte> {
    match entry
    case Stored(data) => data
    case _ => []
  }

  /** What the caller has been given so far; `ended` when a read gave nothing. */
  ghost predicate Output(v: Snap, out: seq<byte>, ended: bool) {
    if v.use && v.fromCache then
      && out == v.served && v.delivered == [] && v.view.Readable()
      && if ended then out == DataOf(v.entry) else out + v.view.Remaining() == DataOf(v.entry)
    else
      && out == v.delivered && v.served == []
      && (v.entry.Nothing? || v.entry.Stored?) && (!v.st.began ==> v.view == v.entry)
  }

  /** All header lines have come. */
  predicate HeardOut(script: seq<Burst>, rest: seq<Burst>, resp: Response) {
    |resp.lines| <= |Deliveries(Used(script, rest))|
  }

  ghost predicate Live(script: seq<Burst>, rest: seq<Burst>, resp: Response, use: bool, v: Snap, out: seq<byte>,
      ended: bool) {
    && Core(script, rest, resp, use, v) && Output(v, out, ended)
    && ErrorOf(Used(script, rest), 0) == None && v.error == NONE
    && (ended && resp.code != 304 ==> v.delivered == v.received == resp.body)
    && (ended && resp.code == 304 ==> v.fromCache)
    && (ended ==> HeardOut(script, rest, resp) && resp.code in {0, 200, 304})
  }

  lemma {:induction false} StaysInSync(script: seq<Burst>, rest: seq<Burst>, rest': seq<Burst>, use: bool, a: Snap,
      c: Snap, caches: seq<CacheObject>, start: Start)
    requires InSync(script, rest, use, a) && |caches| == 1 && start.script == rest && start.views == [a]
    requires Consumed(start, rest', [c], caches, 0)
    requires c.delivered <= c.received && c.fromCache == (a.fromCache || Seen304(Used(rest, rest'), 0))
    requires LinesOk(Deliveries(Used(script, rest')))
    ensures InSync(script, rest', use, c)
    ensures ErrorOf(Used(script, rest), 0) == None ==> ErrorOf(Used(script, rest'), 0) == ErrorOf(Used(rest, rest'), 0)
  {
    var used0, used := Used(script, rest), Used(rest, rest');
    UsedTwice(script, rest, rest');
    UsedConcat(used0, used);
    var ds0, ds1 := Deliveries(used0), Deliveries(used);
    BodyToConcat(0, ds0, ds1);
    AfterEventsConcat(0, Initial(a.entryTags), use, ds0, ds1);
    assert [c][0] == c && [a][0] == a && Unshared(caches, 0);
  }

  /** In sync with a response that is played. */
  lemma {:induction false} SyncFits(script: seq<Burst>, rest: seq<Burst>, resp: Response, use: bool, v: Snap)
    requires Plays(script, resp) && |rest| <= |script|
    ensures LinesOk(Deliveries(Used(script, rest)))
    ensures InSync(script, rest, use, v) ==>
      && v.received <= resp.body
      && v.st.store == Says(resp.lines[..LinesSeen(script, rest, resp)])
      && (HeardOut(script, rest, resp) ==> v.st.store == Says(resp.lines) && v.st.length == Announced(resp.lines))
      && (use && Says(resp.lines) ==> v.st.whole)
      && (v.st.began <==> use && Says(resp.lines) && Chunked(script, rest, resp))
      && (v.received != [] ==> Chunked(script, rest, resp))
      && (v.fromCache ==> resp.code == 304 && HeardOut(script, rest, resp))
      && (resp.code == 304 ==> v.received == [] && !Chunked(script, rest, resp))
      && (Complete(Deliveries(Used(script, rest)), resp) ==> v.received == resp.body)
  {
    var k := |script| - |rest|;
    var ds := Deliveries(script[..k]);
    assert Used(script, rest) == script[..k] && ShapedUpTo(script, k, resp);
    StateFits(ds, resp, use, v.entryTags);
    if Seen304(script[..k], 0) {
      Seen304Means(script, k, resp);
    }
  }

  /** Nothing runs any more after this call, so nothing ran any more after its last burst. */
  lemma {:induction false} RanDownAt(script: seq<Burst>, rest: seq<Burst>, rest': seq<Burst>, k: nat)
    requires script != [] && script[|script| - 1].running == 0 && |rest'| <= |rest| <= |script|
      && k == |script| - |rest'|
    requires rest == script[|script| - |rest|..] && rest' == rest[|rest| - |rest'|..]
      && RanDown(Used(rest, rest'), rest')
    ensures 0 < k && script[k - 1].running == 0
  {
    if rest' != [] {
      var used := Used(rest, rest');
      assert used == rest[..|rest| - |rest'|] && used[|used| - 1] == script[k - 1];
    }
  }

  /** A read that gave nothing, with no error: the response is complete. */
  lemma {:induction false} EndMeansComplete(script: seq<Burst>, rest: seq<Burst>, rest': seq<Burst>, resp: Response)
    requires Plays(script, resp) && |rest'| <= |rest| <= |script|
    requires rest == script[|script| - |rest|..] && rest' == rest[|rest| - |rest'|..]
    requires ErrorOf(Used(script, rest'), 0) == None && RanDown(Used(rest, rest'), rest')
    ensures Complete(Deliveries(Used(script, rest')), resp) && resp.code in {0, 200, 304}
    ensures resp.code == 304 ==> Seen304(Used(script, rest'), 0)
  {
    var k := |script| - |rest'|;
    RanDownAt(script, rest, rest', k);
    assert Used(script, rest') == script[..k];
    RunDownCompletes(script, k, resp);
  }

  /** A read that returns has seen all header lines. */
  lemma {:induction false} ReadHearsOut(script: seq<Burst>, rest: seq<Burst>, rest': seq<Burst>, resp: Response,
      use: bool, a: Snap, c: Snap, caches: seq<CacheObject>, r: Outcome, buffer: seq<byte>, max: nat, start: Start)
    requires Plays(script, resp) && InSync(script, rest, use, a) && InSync(script, rest', use, c)
    requires ErrorOf(Used(script, rest'), 0) == ErrorOf(Used(rest, rest'), 0)
    requires 0 < max && a.error == NONE
    requires start == Start(rest, [a], a.delivered, a.fromCache, 0)
    requires Consumed(start, rest', [c], caches, 0) && Returned(start, rest', a, c, r, buffer, max)
    requires r == Count(0) && !c.fromCache ==> c.delivered == c.received && RanDown(Used(rest, rest'), rest')
    ensures r.Count? ==> HeardOut(script, rest', resp)
    ensures HeardOut(script, rest, resp) ==> HeardOut(script, rest', resp)
    ensures r == Count(0) && !c.fromCache ==> resp.code in {0, 200} && c.delivered == c.received == resp.body
    ensures c.received <= resp.body && (c.fromCache ==> resp.code == 304) && (resp.code == 304 ==> c.received == [])
  {
    SyncFits(script, rest', resp, use, c);
    StillHeard(script, rest, rest', resp);
    if r == Count(0) && !c.fromCache {
      EndMeansComplete(script, rest, rest', resp);
    }
  }

  /** What has been heard stays heard. */
  lemma {:induction false} StillHeard(script: seq<Burst>, rest: seq<Burst>, rest': seq<Burst>, resp: Response)
    requires |rest'| <= |rest| <= |script| && rest == script[|script| - |rest|..] && rest' == rest[|rest| - |rest'|..]
    ensures HeardOut(script, rest, resp) ==> HeardOut(script, rest', resp)
  {
    UsedTwice(script, rest, rest');
    UsedConcat(Used(script, rest), Used(rest, rest'));
  }

  /** What bTransferFinished is after a read. */
  lemma {:induction false} FinishedBy(start: Start, rest: seq<Burst>, a: Snap, c: Snap, r: Outcome, buffer: seq<byte>,
      max: nat, length: nat)
    requires Returned(start, rest, a, c, r, buffer, max) && a.error == NONE && (r.Count? ==> c.st.length == length)
    ensures r.Count? ==> (c.finished <==> a.finished || length == |c.delivered| + |c.served|)
    ensures r.Thrown? ==> c.finished == a.finished
  {
  }

  lemma {:induction false} CoreAfterRead(script: seq<Burst>, rest: seq<Burst>, rest': seq<Burst>, resp: Response,
      use: bool, a: Snap, c: Snap, caches: seq<CacheObject>, r: Outcome, buffer: seq<byte>, max: nat, start: Start)
    requires Plays(script, resp) && Core(script, rest, resp, use, a) && ErrorOf(Used(script, rest), 0) == None
    requires |caches| == 1 && 0 < max && a.error == NONE
    requires start == Start(rest, [a], a.delivered, a.fromCache, 0)
    requires Consumed(start, rest', [c], caches, 0) && Returned(start, rest', a, c, r, buffer, max)
    requires c.delivered <= c.received
    requires r == Count(0) && !c.fromCache ==> c.delivered == c.received && RanDown(Used(rest, rest'), rest')
    ensures Core(script, rest', resp, use, c)
    ensures ErrorOf(Used(script, rest'), 0) == ErrorOf(Used(rest, rest'), 0)
    ensures r.Count? ==> HeardOut(script, rest', resp)
    ensures HeardOut(script, rest, resp) ==> HeardOut(script, rest', resp)
    ensures r.Count? ==> c.st.length == Announced(resp.lines)
    ensures r == Count(0) && !c.fromCache ==> resp.code in {0, 200} && c.delivered == c.received == resp.body
    ensures c.received <= resp.body && (c.fromCache ==> resp.code == 304) && (resp.code == 304 ==> c.received == [])
  {
    SyncFits(script, rest', resp, use, c);
    StaysInSync(script, rest, rest', use, a, c, caches, start);
    ReadHearsOut(script, rest, rest', resp, use, a, c, caches, r, buffer, max, start);
    if !(use && c.fromCache) {
      NotServed(start, rest', a, c, r, buffer, max);
    }
  }

  lemma {:induction false} NotServed(start: Start, rest: seq<Burst>, a: Snap, c: Snap, r: Outcome, buffer: seq<byte>,
      max: nat)
    requires Returned(start, rest, a, c, r, buffer, max) && !(c.use && c.fromCache) && c.use == a.use
    ensures !(a.use && a.fromCache) && c.served == a.served
  {
  }

  /** The validators of a stream are those of the cache object it was opened on, brought up to date. */
  lemma {:induction false} TagsFit(script: seq<Burst>, rest: seq<Burst>, resp: Response, use: bool, v: Snap)
    requires Plays(script, resp) && InSync(script, rest, use, v)
    ensures forall line | line in resp.lines[..LinesSeen(script, rest, resp)] :: HeaderLine(line)
    ensures v.st.tags == if use then TagsAll(v.entryTags, resp.lines[..LinesSeen(script, rest, resp)]) else v.entryTags
  {
    assert ShapedUpTo(script, |script| - |rest|, resp);
    TagsSeen(Deliveries(Used(script, rest)), resp.lines, use, v.entryTags);
  }

  /** What a stream in a consistent state says about itself. */
  ghost predicate Sound(v: Snap) {
    && v.delivered <= v.received
    && (v.st.began ==> v.use && v.st.store) && (v.st.whole ==> v.logged == v.received)
      && (!v.st.began ==> v.logged == [])
    && (v.coherent ==>
          && (v.entry.Nothing? || v.entry.Stored?)
          && (v.st.began ==> v.view == Writing(v.logged))
          && (!v.st.began && v.served == [] ==> v.view == v.entry)
          && (!v.st.began ==> AfterReset(v.view) == v.entry))
  }

  lemma {:induction false} ServeKeepsReadable(c: Content, n: nat)
    requires c.Readable() && 0 < n
    ensures AfterRead(c, n).Readable() && AfterServe(c, n).Readable()
    ensures ReadOut(c, n) != [] ==> AfterServe(c, n) == AfterRead(c, n)
  {
  }

  lemma {:induction false} ServedOutput(a: Snap, c: Snap, out: seq<byte>, max: nat)
    requires Output(a, out, false) && a.delivered == [] && c.delivered == [] && 0 < max
    requires a.view.Readable() && !a.st.began && c.use && c.fromCache && c.entry == a.entry
    requires c.served == a.served + ReadOut(a.view, max) && c.view == AfterServe(a.view, max)
    ensures Output(c, out + ReadOut(a.view, max), ReadOut(a.view, max) == [])
  {
    OneReadConserves(a.view, max);
    Assoc(out, ReadOut(a.view, max), AfterRead(a.view, max).Remaining());
    ServeKeepsReadable(a.view, max);
  }

  lemma {:induction false} OutputAfterRead(start: Start, rest: seq<Burst>, a: Snap, c: Snap, r: Outcome,
      buffer: seq<byte>, max: nat, out: seq<byte>)
    requires Returned(start, rest, a, c, r, buffer, max) && Output(a, out, false) && a.error == NONE && 0 < max
    requires c.use == a.use && c.entry == a.entry && (c.fromCache ==> c.delivered == [])
    requires !c.st.began && c.served == [] ==> c.view == c.entry
    requires a.st.began ==> a.view.Writing?
    ensures r != Failed
    ensures r.Count? ==> r.n <= |buffer| && Output(c, out + buffer[..r.n], r.n == 0)
  {
    if r.Count? {
      if c.use && c.fromCache {
        assert a.delivered == [] && c.delivered == [];
        assert Answer(a.(use := c.use, fromCache := c.fromCache), max) == ReadOut(a.view, max);
        assert buffer[0..r.n] == buffer[..r.n];
        ServedOutput(a, c, out, max);
      } else {
        assert Answer(a.(use := c.use, fromCache := c.fromCache), max) == [];
      }
    }
  }

  lemma {:induction false} LiveAfterRead(script: seq<Burst>, rest: seq<Burst>, rest': seq<Burst>, resp: Response,
      use: bool, a: Snap, c: Snap, caches: seq<CacheObject>, r: Outcome, buffer: seq<byte>, max: nat, start: Start,
      out: seq<byte>)
    requires Plays(script, resp) && Live(script, rest, resp, use, a, out, false)
    requires |caches| == 1 && 0 < max && start == Start(rest, [a], a.delivered, a.fromCache, 0)
    requires Consumed(start, rest', [c], caches, 0) && Returned(start, rest', a, c, r, buffer, max)
    requires Sound(a) && Sound(c)
    requires r == Count(0) && !c.fromCache ==> c.delivered == c.received && RanDown(Used(rest, rest'), rest')
    ensures Core(script, rest', resp, use, c) && r != Failed && c.entry == a.entry
    ensures r.Thrown? ==> c.finished == a.finished && ErrorOf(Used(script, rest'), 0) == Some(r.error)
    ensures r.Count? ==> HeardOut(script, rest', resp) && r.n <= |buffer|
    ensures HeardOut(script, rest, resp) ==> HeardOut(script, rest', resp)
    ensures r.Count? ==>
      (c.finished <==> a.finished || Announced(resp.lines) == |out + buffer[..r.n]|)
    ensures a.received <= c.received && (r.Count? ==> r.n <= max) && (a.fromCache ==> c.fromCache)
    ensures r.Count? ==> r.n <= |buffer| && Live(script, rest', resp, use, c, out + buffer[..r.n], r.n == 0)
  {
    CoreAfterRead(script, rest, rest', resp, use, a, c, caches, r, buffer, max, start);
    assert [c][0] == c && [a][0] == a;
    FinishedBy(start, rest', a, c, r, buffer, max, Announced(resp.lines));
    OutputAfterRead(start, rest', a, c, r, buffer, max, out);
  }

  lemma {:induction false} HeadersOnly(ds: seq<Delivery>, resp: Response)
    requires Shaped(ds, resp) && resp.code == 304
    ensures forall d | d in ds :: !d.event.Body?
  {
    forall d | d in ds
      ensures !d.event.Body?
    {
      var i :| 0 <= i < |ds| && ds[i] == d;
      assert CallAt(ds, i, resp.lines);
    }
  }

  lemma {:induction false} RestOfScript(script: seq<Burst>, rest: seq<Burst>)
    requires |rest| <= |script| && rest == script[|script| - |rest|..]
    ensures forall d | d in Deliveries(rest) :: d in Deliveries(script)
    ensures forall i :: Seen304(rest, i) ==> Seen304(script, i)
  {
    var used := Used(script, rest);
    assert script == used + rest;
    UsedConcat(used, rest);
    assert forall d | d in Deliveries(rest) :: d in Deliveries(used) + Deliveries(rest);
  }

  lemma {:induction false} WholeScript(script: seq<Burst>, resp: Response)
    requires Plays(script, resp)
    ensures Shaped(Deliveries(script), resp) && (Seen304(script, 0) ==> resp.code == 304)
  {
    assert script[..|script|] == script && ShapedUpTo(script, |script|, resp);
    if Seen304(script, 0) {
      Seen304Means(script, |script|, resp);
    }
  }

  /** A script that plays a 304 brings no body chunk, in any part of it. */
  lemma {:induction false} QuietRest(script: seq<Burst>, rest: seq<Burst>, resp: Response)
    requires Plays(script, resp) && |rest| <= |script| && rest == script[|script| - |rest|..]
    ensures Seen304(rest, 0) ==> resp.code == 304
    ensures resp.code == 304 ==> forall d | d in Deliveries(rest) :: !d.event.Body?
  {
    WholeScript(script, resp);
    RestOfScript(script, rest);
    if resp.code == 304 {
      HeadersOnly(Deliveries(script), resp);
    }
  }

  lemma {:induction false} StreamSound(s: HttpStream)
    requires s.Conserved()
    ensures Sound(s.View()) && (s.fBuffer == [] ==> s.delivered == s.received)
  {
    assert s.delivered <= s.delivered + s.fBuffer;
  }

  lemma {:induction false} SafeAlone(s: HttpStream, m: Multi, script: seq<Burst>, resp: Response, out: seq<byte>)
    requires Plays(script, resp) && m.handles == [s] && Sound(s.View())
    requires Live(script, m.script, resp, s.bUseCache, s.View(), out, false)
    ensures s.ServeSafe(m, 0)
  {
    var v := s.View();
    QuietRest(script, m.script, resp);
    SyncFits(script, m.script, resp, s.bUseCache, v);
    if s.bUseCache && (s.bStreamFromCache || Seen304(m.script, 0)) {
      assert resp.code == 304 && !v.st.began;
      assert v.view.Readable();
      assert Quiet(CachesOf(m.handles), s.cacheObject, Deliveries(m.script));
    }
  }

  /** readBytes on a stream that is alone on its multi handle. */
  method ReadAlone(s: HttpStream, m: Multi, buffer: array<byte>, size: nat) returns (r: Outcome, ghost start: Start)
    requires m.handles == [s] && m.Wired() && m.Scripted() && s.fBytesToRead == 0
    requires size <= buffer.Length && s.ServeSafe(m, 0)
    modifies m`script, m`running, s, s.cacheObject, buffer
    ensures m.Wired() && m.Scripted() && (r.Thrown? || s.fBytesToRead == 0)
    ensures r.Thrown? ==> s.fBytesToRead == size - (|s.delivered| - |old(s.delivered)|)
    ensures start == Start(old(m.script), [old(s.View())], old(s.delivered), old(s.bStreamFromCache), 0)
    ensures Consumed(start, m.script, [s.View()], [s.cacheObject], 0)
    ensures Returned(start, m.script, old(s.View()), s.View(), r, buffer[..], size)
    ensures StopsRight(start, m.script, s.View(), size)
    ensures r == Count(0) && 0 < size && !s.bStreamFromCache ==>
      s.delivered == s.received && RanDown(Used(start.script, m.script), m.script)
    ensures Sound(s.View())
  {
    assert m.handles[0] == s && s in m.handles && m.Streams() == {s} && m.Caches() == {s.cacheObject};
    r, start := s.ReadBytes(m, 0, buffer, size);
    assert ViewsOf(m.handles) == [s.View()] && CachesOf(m.handles) == [s.cacheObject];
    assert Consumed(start, m.script, [s.View()], [s.cacheObject], 0);
    StreamSound(s);
  }

  /** One read during the lifetime of the stream. */
  method ReadLive(s: HttpStream, m: Multi, buffer: array<byte>, size: nat, ghost script: seq<Burst>,
      ghost resp: Response, ghost out: seq<byte>) returns (r: Outcome)
    requires Plays(script, resp) && m.handles == [s] && m.Wired() && m.Scripted() && s.fBytesToRead == 0
    requires Live(script, m.script, resp, s.bUseCache, s.View(), out, false) && Sound(s.View())
    requires 0 < size <= buffer.Length
    modifies m`script, m`running, s, s.cacheObject, buffer
    ensures m.Wired() && m.Scripted() && s.bUseCache == old(s.bUseCache) && Sound(s.View())
    ensures Core(script, m.script, resp, s.bUseCache, s.View()) && r != Failed
    ensures r.Thrown? ==>
      s.bTransferFinished == old(s.bTransferFinished) && ErrorOf(Used(script, m.script), 0) == Some(r.error)
    ensures r.Count? ==> r.n <= size && s.fBytesToRead == 0
    ensures old(s.received) <= s.received && (old(s.bStreamFromCache) ==> s.bStreamFromCache)
    ensures s.View().entry == old(s.View()).entry
    ensures r.Count? || old(HeardOut(script, m.script, resp)) ==> HeardOut(script, m.script, resp)
    ensures r.Count? ==>
      (s.bTransferFinished <==>
        old(s.bTransferFinished) || Announced(resp.lines) == |out + buffer[..][..r.n]|)
    ensures r.Count? ==> Live(script, m.script, resp, s.bUseCache, s.View(), out + buffer[..][..r.n], r.n == 0)
  {
    ghost var a, rest := s.View(), m.script;
    SafeAlone(s, m, script, resp, out);
    ghost var start;
    r, start := ReadAlone(s, m, buffer, size);
    ghost var c := s.View();
    LiveAfterRead(script, rest, m.script, resp, a.use, a, c, [s.cacheObject], r, buffer[..], size, start, out);
    assert c.use == s.bUseCache == a.use;
  }

  // ---- One lifetime ------------------------------------------------

  /** What the caller's reads gave, read by read; `ended` when one gave nothing, `threw` when one threw an error. */
  datatype Given = Given(pieces: seq<seq<byte>>, out: seq<byte>, ended: bool, threw: bool, error: ErrorCode)

  const NOTHING_GIVEN: Given := Given([], [], false, false, NONE)

  /** After some read the caller had exactly so many bytes. */
  predicate Hits(pieces: seq<seq<byte>>, length: nat) {
    pieces != [] && (Hits(pieces[..|pieces| - 1], length) || |Flatten(pieces)| == length)
  }

  /** Every read gave something, but for the last, if it is the one that gave nothing. */
  predicate Stepwise(pieces: seq<seq<byte>>, ended: bool) {
    && (ended ==> pieces != [])
    && forall i | 0 <= i < |pieces| :: pieces[i] == [] <==> ended && i == |pieces| - 1
  }

  /** The caller never had nothing after a read, unless the first one gave nothing. */
  lemma {:induction false} ZeroHits(pieces: seq<seq<byte>>)
    ensures Hits(pieces, 0) ==> pieces != [] && pieces[0] == []
    ensures Flatten(pieces) == [] && pieces != [] ==> pieces[0] == []
  {
    if pieces != [] {
      ZeroHits(pieces[..|pieces| - 1]);
    }
  }

  lemma {:induction false} HitsSnoc(pieces: seq<seq<byte>>, piece: seq<byte>, length: nat)
    ensures Flatten(pieces + [piece]) == Flatten(pieces) + piece
    ensures Hits(pieces + [piece], length) <==> Hits(pieces, length) || |Flatten(pieces) + piece| == length
  {
    FlattenSnoc(pieces, piece);
    assert (pieces + [piece])[..|pieces|] == pieces;
  }

  lemma {:induction false} HitsWithin(pieces: seq<seq<byte>>, length: nat)
    ensures Hits(pieces, length) ==> length <= |Flatten(pieces)|
    ensures pieces != [] ==> Hits(pieces, |Flatten(pieces)|)
  {
    if pieces != [] {
      HitsWithin(pieces[..|pieces| - 1], length);
    }
  }

  /**
   What the caller got is the start of what came, or of the cached data after a 304; it had exactly
   the announced length after some read if and only if bTransferFinished is set. With caching
   switched off a 304 gives nothing.
   */
  predicate Modest(g: Given, resp: Response, v: Snap) {
    && g.out == Flatten(g.pieces)
    && (if resp.code == 304 then g.out <= DataOf(v.entry) else g.out <= v.received)
    && (resp.code == 304 && !v.use ==> g.out == [])
    && (resp.code == 304 && g.out != [] ==> v.fromCache)
    && (v.finished <==> Hits(g.pieces, Announced(resp.lines)))
    && Stepwise(g.pieces, g.ended) && (g.threw ==> !g.ended)
  }

  lemma {:induction false} LiveGives(script: seq<Burst>, rest: seq<Burst>, resp: Response, use: bool, v: Snap,
      out: seq<byte>, ended: bool)
    requires Plays(script, resp) && Live(script, rest, resp, use, v, out, ended)
    ensures if resp.code == 304 then out <= DataOf(v.entry) else out <= v.received
    ensures resp.code == 304 && !use ==> out == []
    ensures resp.code == 304 && out != [] ==> v.fromCache
  {
    SyncFits(script, rest, resp, use, v);
  }

  /**
   How a caller reads: so many times, with these sizes at most, or until nothing comes, or for a
   parser, as long as the loop of parse goes on.
   */
  datatype Plan = Sizes(sizes: seq<nat>) | ToEnd(size: nat) | Parse(parser: Parsing.Parser)

  predicate Sensible(plan: Plan) {
    match plan
    case Sizes(sizes) => forall n | n in sizes :: 0 < n
    case ToEnd(size) => 0 < size
    case Parse(_) => true
  }

  /** How far the reads have gone through the plan. */
  predicate Paced(g: Given, plan: Plan) {
    match plan
    case Sizes(sizes) => PacedBy(g, sizes)
    case ToEnd(size) => Portions(g, size) && (g.ended || g.threw)
    case Parse(parser) => Portions(g, Parsing.BUFSIZE) && PacedFor(g, parser)
  }

  /** The loop of parse has stopped at the last of the reads, and at none before it; or a read threw. */
  predicate PacedFor(g: Given, parser: Parsing.Parser) {
    if g.threw then !Parsing.After(g.pieces, parser).stopped
    else
      && g.pieces != [] && Parsing.After(g.pieces, parser).stopped
      && !Parsing.After(g.pieces[..|g.pieces| - 1], parser).stopped
  }

  /** No read gave more than it was asked for. */
  predicate Portions(g: Given, size: nat) {
    forall piece | piece in g.pieces :: |piece| <= size
  }

  /** One read for each size, in order, until one gave nothing or threw. */
  predicate PacedBy(g: Given, sizes: seq<nat>) {
    && |g.pieces| <= |sizes| && (forall i | 0 <= i < |g.pieces| :: |g.pieces[i]| <= sizes[i])
    && (g.threw ==> |g.pieces| < |sizes|) && |g.out| <= Sum(sizes)
    && (!g.ended && !g.threw ==> |g.pieces| == |sizes| <= |g.out|)
  }

  /** The stream during its lifetime: alone on its handle, in step with the script. */
  ghost predicate Alive(s: HttpStream, m: Multi, script: seq<Burst>, resp: Response, use: bool)
    reads m`script, m`gone, s, s.cacheObject
  {
    && m.handles == [s] && s.Conserved() && s.cacheObject.Valid() && m.Scripted()
    && Core(script, m.script, resp, use, s.View()) && Sound(s.View())
  }

  lemma {:induction false} AliveWired(s: HttpStream, m: Multi, script: seq<Burst>, resp: Response, use: bool)
    requires m.handles == [s]
    ensures m.Wired() <==> s.Conserved() && s.cacheObject.Valid()
  {
    assert m.handles[0] == s && s in m.handles;
  }

  /** What holds of a lifetime after the reads so far. */
  ghost predicate Under(s: HttpStream, m: Multi, script: seq<Burst>, resp: Response, use: bool, g: Given)
    reads m`script, m`gone, s, s.cacheObject
  {
    && Alive(s, m, script, resp, use) && Modest(g, resp, s.View())
    && (g.pieces != [] ==> HeardOut(script, m.script, resp))
    && if g.threw then ErrorOf(Used(script, m.script), 0) == Some(g.error)
       else s.fBytesToRead == 0 && Live(script, m.script, resp, use, s.View(), g.out, g.ended)
  }

  function GivenBy(g: Given, r: Outcome, data: seq<byte>): Given {
    if r.Count? && r.n <= |data| then Given(g.pieces + [data[..r.n]], g.out + data[..r.n], r.n == 0, false, NONE)
    else g.(threw := true, error := if r.Thrown? then r.error else READ_FAILED)
  }

  /** The turn before, the read, and what it gave. */
  lemma {:induction false} TurnIsModest(script: seq<Burst>, rest: seq<Burst>, resp: Response, a: Snap, c: Snap,
      g: Given, r: Outcome, data: seq<byte>)
    requires Plays(script, resp) && Core(script, rest, resp, c.use, c)
    requires Modest(g, resp, a) && !g.ended && !g.threw
    requires c.entry == a.entry && c.use == a.use && (a.fromCache ==> c.fromCache) && a.received <= c.received
    requires r.Thrown? ==> c.finished == a.finished
    requires r.Count? ==> r.n <= |data| && Live(script, rest, resp, c.use, c, g.out + data[..r.n], r.n == 0)
    requires r.Count? ==> (c.finished <==> a.finished || Announced(resp.lines) == |g.out + data[..r.n]|)
    requires r != Failed
    ensures Modest(GivenBy(g, r, data), resp, c)
  {
    if r.Count? {
      LiveGives(script, rest, resp, c.use, c, g.out + data[..r.n], r.n == 0);
      HitsSnoc(g.pieces, data[..r.n], Announced(resp.lines));
    }
  }

  /** One read, with what the caller is given. */
  method ReadOnce(s: HttpStream, m: Multi, buffer: array<byte>, size: nat, ghost script: seq<Burst>,
      ghost resp: Response, ghost g: Given) returns (r: Outcome)
    requires Plays(script, resp) && m.handles == [s] && m.Wired() && m.Scripted() && s.fBytesToRead == 0
    requires Live(script, m.script, resp, s.bUseCache, s.View(), g.out, false) && Sound(s.View())
    requires Modest(g, resp, s.View()) && !g.ended && !g.threw
    requires 0 < size <= buffer.Length
    modifies m`script, m`running, s, s.cacheObject, buffer
    ensures m.Wired() && m.Scripted() && s.bUseCache == old(s.bUseCache) && Sound(s.View())
    ensures Core(script, m.script, resp, s.bUseCache, s.View()) && r != Failed
    ensures r.Thrown? ==> ErrorOf(Used(script, m.script), 0) == Some(r.error)
    ensures r.Count? ==> r.n <= size && s.fBytesToRead == 0
    ensures r.Count? || old(HeardOut(script, m.script, resp)) ==> HeardOut(script, m.script, resp)
    ensures Modest(GivenBy(g, r, buffer[..]), resp, s.View())
    ensures r.Count? ==> Live(script, m.script, resp, s.bUseCache, s.View(), g.out + buffer[..][..r.n], r.n == 0)
  {
    ghost var a := s.View();
    r := ReadLive(s, m, buffer, size, script, resp, g.out);
    TurnIsModest(script, m.script, resp, a, s.View(), g, r, buffer[..]);
  }

  /** One turn of the caller's loop. */
  method ReadInto(s: HttpStream, m: Multi, buffer: array<byte>, size: nat, ghost script: seq<Burst>,
      ghost resp: Response, ghost use: bool, g: Given)
    returns (g': Given)
    requires Plays(script, resp) && Under(s, m, script, resp, use, g) && !g.ended && !g.threw
    requires 0 < size <= buffer.Length
    modifies m`script, m`running, s, s.cacheObject, buffer
    ensures Under(s, m, script, resp, use, g') && Onward(g, g', size)
  {
    AliveWired(s, m, script, resp, use);
    var r := ReadOnce(s, m, buffer, size, script, resp, g);
    AliveWired(s, m, script, resp, use);
    g' := GivenBy(g, r, buffer[..]);
  }

  /** One read more. */
  predicate Onward(g: Given, g': Given, size: nat) {
    if g'.threw then g' == g.(threw := true, error := g'.error)
    else
      && |g'.pieces| == |g.pieces| + 1 && g'.pieces[..|g.pieces|] == g.pieces
      && var piece := g'.pieces[|g.pieces|];
         && g'.out == g.out + piece && |piece| <= size && g'.ended == (piece == [])
  }

  method ReadNext(s: HttpStream, m: Multi, size: nat, ghost script: seq<Burst>, ghost resp: Response, ghost use: bool,
      g: Given)
    returns (g': Given)
    requires Plays(script, resp) && Under(s, m, script, resp, use, g) && !g.ended && !g.threw && 0 < size
    modifies m`script, m`running, s, s.cacheObject
    ensures Under(s, m, script, resp, use, g') && Onward(g, g', size)
  {
    var buffer := new byte[size];
    g' := ReadInto(s, m, buffer, size, script, resp, use, g);
  }

  lemma {:induction false} PacedOn(g: Given, g': Given, sizes: seq<nat>, k: nat)
    requires k < |sizes| && PacedBy(g, sizes[..k]) && !g.ended && !g.threw
    requires Onward(g, g', sizes[k])
    ensures PacedBy(g', sizes[..k + 1])
  {
    SumSnoc(sizes[..k], sizes[k]);
    assert sizes[..k + 1] == sizes[..k] + [sizes[k]];
  }

  /** The caller reads until a read gives nothing or throws, or until it has had enough. */
  method DrainSizes(s: HttpStream, m: Multi, sizes: seq<nat>, ghost script: seq<Burst>, ghost resp: Response,
      ghost use: bool)
    returns (g: Given)
    requires Plays(script, resp) && Alive(s, m, script, resp, use) && s.fBytesToRead == 0
    requires Live(script, m.script, resp, use, s.View(), [], false) && !s.bTransferFinished
    requires forall n | n in sizes :: 0 < n
    modifies m`script, m`running, s, s.cacheObject
    ensures Under(s, m, script, resp, use, g) && PacedBy(g, sizes)
  {
    g := NOTHING_GIVEN;
    LiveGives(script, m.script, resp, use, s.View(), g.out, g.ended);
    var k := 0;
    while k < |sizes| && !g.ended && !g.threw
      invariant k <= |sizes| && Under(s, m, script, resp, use, g) && PacedBy(g, sizes[..k])
    {
      ghost var before := g;
      assert sizes[k] in sizes;
      g := ReadNext(s, m, sizes[k], script, resp, use, g);
      PacedOn(before, g, sizes, k);
      k := k + 1;
    }
    StoppedPace(g, sizes, k);
  }

  /** Reads that were not made do not count. */
  lemma {:induction false} StoppedPace(g: Given, sizes: seq<nat>, k: nat)
    requires k <= |sizes| && PacedBy(g, sizes[..k]) && (k < |sizes| ==> g.ended || g.threw)
    ensures PacedBy(g, sizes)
    decreases |sizes| - k
  {
    if k < |sizes| {
      assert sizes[..k + 1] == sizes[..k] + [sizes[k]];
      SumSnoc(sizes[..k], sizes[k]);
      StoppedPace(g, sizes, k + 1);
    } else {
      assert sizes[..k] == sizes;
    }
  }

  /** No more than this is read. */
  function Most(entry: Content, resp: Response): nat {
    |DataOf(entry)| + |resp.body|
  }

  lemma {:induction false} ModestEnds(g: Given, resp: Response, v: Snap)
    requires Modest(g, resp, v) && v.received <= resp.body
    ensures |g.out| <= Most(v.entry, resp)
  {
  }

  lemma {:induction false} PortionsOn(g: Given, g': Given, size: nat)
    requires Portions(g, size) && Onward(g, g', size)
    ensures Portions(g', size)
  {
    if !g'.threw {
      assert g'.pieces == g.pieces + [g'.pieces[|g.pieces|]];
    }
  }

  /** The caller reads until a read gives nothing or throws. */
  method DrainToEnd(s: HttpStream, m: Multi, size: nat, ghost script: seq<Burst>, ghost resp: Response, ghost use: bool)
    returns (g: Given)
    requires Plays(script, resp) && Alive(s, m, script, resp, use) && s.fBytesToRead == 0
    requires Live(script, m.script, resp, use, s.View(), [], false) && !s.bTransferFinished
    requires 0 < size
    modifies m`script, m`running, s, s.cacheObject
    ensures Under(s, m, script, resp, use, g) && Portions(g, size) && (g.ended || g.threw)
  {
    g := NOTHING_GIVEN;
    LiveGives(script, m.script, resp, use, s.View(), g.out, g.ended);
    ghost var entry := s.entry;
    while !g.ended && !g.threw
      invariant Under(s, m, script, resp, use, g) && Portions(g, size)
      decreases Most(entry, resp) - |g.out|, !g.ended && !g.threw
    {
      SyncFits(script, m.script, resp, use, s.View());
      ModestEnds(g, resp, s.View());
      ghost var before := g;
      g := ReadNext(s, m, size, script, resp, use, g);
      PortionsOn(before, g, size);
    }
  }

  /** The loop of parse. */
  method DrainFor(s: HttpStream, m: Multi, parser: Parsing.Parser, ghost script: seq<Burst>, ghost resp: Response,
      ghost use: bool)
    returns (g: Given)
    requires Plays(script, resp) && Alive(s, m, script, resp, use) && s.fBytesToRead == 0
    requires Live(script, m.script, resp, use, s.View(), [], false) && !s.bTransferFinished
    modifies m`script, m`running, s, s.cacheObject
    ensures Under(s, m, script, resp, use, g) && Portions(g, Parsing.BUFSIZE) && PacedFor(g, parser)
  {
    g := NOTHING_GIVEN;
    LiveGives(script, m.script, resp, use, s.View(), g.out, g.ended);
    ghost var entry := s.entry;
    var at := Parsing.LoopState(true, [], false);
    while !at.stopped && !g.threw
      invariant Under(s, m, script, resp, use, g) && Portions(g, Parsing.BUFSIZE)
      invariant at == Parsing.After(g.pieces, parser)
      invariant if at.stopped then PacedFor(g, parser) else !g.ended
      decreases Most(entry, resp) - |g.out|, !at.stopped && !g.threw
    {
      SyncFits(script, m.script, resp, use, s.View());
      ModestEnds(g, resp, s.View());
      var before := g;
      g := ReadNext(s, m, Parsing.BUFSIZE, script, resp, use, g);
      PortionsOn(before, g, Parsing.BUFSIZE);
      if !g.threw {
        assert g.pieces[..|g.pieces| - 1] == before.pieces;
        at := Parsing.TurnOn(at, g.pieces[|g.pieces| - 1], parser);
      }
    }
  }

  method Drain(s: HttpStream, m: Multi, plan: Plan, ghost script: seq<Burst>, ghost resp: Response, ghost use: bool)
    returns (g: Given)
    requires Plays(script, resp) && Alive(s, m, script, resp, use) && s.fBytesToRead == 0
    requires Live(script, m.script, resp, use, s.View(), [], false) && !s.bTransferFinished
    requires Sensible(plan)
    modifies m`script, m`running, s, s.cacheObject
    ensures Under(s, m, script, resp, use, g) && Paced(g, plan)
  {
    match plan
    case Sizes(sizes) => g := DrainSizes(s, m, sizes, script, resp, use);
    case ToEnd(size) => g := DrainToEnd(s, m, size, script, resp, use);
    case Parse(parser) => g := DrainFor(s, m, parser, script, resp, use);
  }

  lemma {:induction false} PlaysScripted(script: seq<Burst>, resp: Response)
    requires Plays(script, resp)
    ensures ScriptOk(script, 1, {})
  {
    forall k | 0 <= k < |script|
      ensures LinesOk(script[k].deliveries) && forall d | d in script[k].deliveries :: d.to < 1
    {
      DeliveriesSnoc(script, k);
      assert ShapedUpTo(script, k + 1, resp);
      var ds, all := script[k].deliveries, Deliveries(script[..k + 1]);
      LinesOfShaped(all, resp);
      assert forall d | d in ds :: d in all;
      forall d | d in ds
        ensures d.to == 0
      {
        var i :| 0 <= i < |all| && all[i] == d;
        assert CallAt(all, i, resp.lines);
      }
    }
  }

  /** A stream that has just been opened. */
  lemma {:induction false} LiveAtFirst(script: seq<Burst>, resp: Response, v: Snap)
    requires Plays(script, resp)
    requires v.received == v.delivered == v.served == [] && v.st == Initial(v.entryTags) && !v.fromCache && !v.finished
    requires v.error == NONE && v.coherent && !v.st.began && v.view == v.entry && (v.entry.Nothing? || v.entry.Stored?)
    ensures Live(script, script, resp, v.use, v, [], false)
  {
    assert Used(script, script) == [] && script[0..] == script;
  }
}
