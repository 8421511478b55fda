/**
 The HTTP stream of src/HttpStream.cpp: a pull reader over libcurl's push callback, with an
 overflow buffer. All streams share one multi handle, so a read on one stream can push bytes into
 another. libcurl is a script of bursts, one for each call of curl_multi_perform.
 */
module HttpStreams {
  import opened Bytes
  import opened CacheObjects
  import opened HttpHeaders

  // ---- The environment ------------------------------------------------

  datatype Event = Header(line: string) | Body(data: seq<byte>)

  /** A callback on the stream at position `to` of the multi handle. */
  datatype Delivery = Delivery(to: nat, event: Event)

  datatype CurlCode =
    | CURLE_OK | CURLE_REMOTE_FILE_NOT_FOUND | CURLE_UNSUPPORTED_PROTOCOL
    | CURLE_COULDNT_RESOLVE | CURLE_COULDNT_CONNECT | CURLE_RECV_ERROR | CURLE_OTHER

  /** A queued message: some transfer on the multi handle has ended, or something else. */
  datatype Message = NotDone | Done(result: CurlCode)

  datatype ErrorCode = NONE | NOT_FOUND | ACCESS_DENIED | READ_FAILED | CONNECT_FAILED

  /**
   What a message makes readBytes throw on a handle whose response code is `code`; 301 and 302 come
   here without a Location.
   */
  function MessageError(m: Message, code: int): Option<ErrorCode> {
    match m
    case NotDone => None
    case Done(CURLE_OK) =>
      if code == 0 || code == 200 || code == 304 then None
      else if code == 301 || code == 302 then Some(CONNECT_FAILED)
      else if code == 401 || code == 403 || code == 407 then Some(ACCESS_DENIED)
      else Some(NOT_FOUND)
    case Done(CURLE_REMOTE_FILE_NOT_FOUND) => Some(NOT_FOUND)
    case Done(CURLE_UNSUPPORTED_PROTOCOL) => Some(CONNECT_FAILED)
    case Done(CURLE_COULDNT_RESOLVE) => Some(CONNECT_FAILED)
    case Done(CURLE_COULDNT_CONNECT) => Some(CONNECT_FAILED)
    case Done(_) => Some(READ_FAILED)
  }

  function FirstError(ms: seq<Message>, code: int): Option<ErrorCode> {
    if ms == [] then None
    else if MessageError(ms[0], code).Some? then MessageError(ms[0], code) else FirstError(ms[1..], code)
  }

  /** A message that makes a stream with a 304 turn to its cache is reached before any error. */
  predicate Says304(ms: seq<Message>, code: int) {
    ms != [] && MessageError(ms[0], code).None? && ((ms[0] == Done(CURLE_OK) && code == 304) || Says304(ms[1..], code))
  }

  /**
   What one curl_multi_perform does, what curl_multi_info_read gives after it, and the response code
   that each handle has by then, 0 for none.
   */
  datatype Burst = Burst(deliveries: seq<Delivery>, callAgain: bool, messages: seq<Message>, running: nat,
      codes: seq<int>)

  const NO_BURST: Burst := Burst([], false, [], 0, [])

  function CodeOf(b: Burst, i: nat): int {
    if i < |b.codes| then b.codes[i] else 0
  }

  /** The body bytes that deliveries bring to stream i. */
  function BodyTo(i: nat, ds: seq<Delivery>): seq<byte> {
    if ds == [] then [] else
      var d := ds[|ds| - 1];
      BodyTo(i, ds[..|ds| - 1]) + if d.to == i && d.event.Body? then d.event.data else []
  }

  /** All the callbacks of a series of bursts, in order. */
  function Deliveries(bursts: seq<Burst>): seq<Delivery> {
    if bursts == [] then [] else Deliveries(bursts[..|bursts| - 1]) + bursts[|bursts| - 1].deliveries
  }

  lemma {:induction false} DeliveriesSnoc(bursts: seq<Burst>, k: nat)
    requires k < |bursts|
    ensures Deliveries(bursts[..k + 1]) == Deliveries(bursts[..k]) + bursts[k].deliveries
  {
    assert bursts[..k + 1][..k] == bursts[..k];
  }

  lemma {:induction false} BodyToConcat(i: nat, a: seq<Delivery>, b: seq<Delivery>)
    ensures BodyTo(i, a + b) == BodyTo(i, a) + BodyTo(i, b)
  {
    if b == [] {
      assert a + b == a;
    } else {
      var d := b[|b| - 1];
      BodyToConcat(i, a, b[..|b| - 1]);
      assert (a + b)[..|a + b| - 1] == a + b[..|b| - 1] && (a + b)[|a + b| - 1] == d;
      Assoc(BodyTo(i, a), BodyTo(i, b[..|b| - 1]), if d.to == i && d.event.Body? then d.event.data else []);
    }
  }

  lemma {:induction false} Splice(out: seq<byte>, held: seq<byte>, chunk: seq<byte>, n: nat)
    requires n <= |chunk| && (n > 0 ==> held == [])
    ensures (out + chunk[..n]) + (held + chunk[n..]) == (out + held) + chunk
  {
  }

  /**
   What a stream remembers of a response: a 200 was seen, Content-Length, every chunk was cached,
   validators, some chunk was cached.
   */
  datatype HeaderState = HeaderState(store: bool, length: nat, whole: bool, tags: Tags, began: bool)

  ghost function AfterEvent(st: HeaderState, use: bool, e: Event): HeaderState
    requires e.Header? ==> HeaderLine(e.line)
  {
    match e
    case Header(line) =>
      st.(store := st.store || SaysOk(line),
          length := if Kind(line) == ContentLengthLine then ContentLengthOf(line) else st.length,
          tags := if use then TagsAfter(st.tags, line) else st.tags)
    case Body(_) => st.(whole := st.whole && use && st.store, began := st.began || (use && st.store))
  }

  /** Every header line is complete. */
  predicate LinesOk(ds: seq<Delivery>) {
    forall d | d in ds && d.event.Header? :: HeaderLine(d.event.line)
  }

  /** The script speaks of streams that exist and are still there, in complete lines. */
  ghost predicate ScriptOk(script: seq<Burst>, n: nat, gone: set<nat>) {
    forall k | 0 <= k < |script| ::
      LinesOk(script[k].deliveries) && forall d | d in script[k].deliveries :: d.to < n && d.to !in gone
  }

  ghost function AfterEvents(i: nat, st: HeaderState, use: bool, ds: seq<Delivery>): HeaderState
    requires LinesOk(ds)
  {
    if ds == [] then st else
      var d := ds[|ds| - 1];
      var before := AfterEvents(i, st, use, ds[..|ds| - 1]);
      if d.to == i then AfterEvent(before, use, d.event) else before
  }

  lemma {:induction false} OneEvent(i: nat, st: HeaderState, use: bool, d: Delivery)
    requires LinesOk([d])
    ensures d in [d]
    ensures BodyTo(i, [d]) == if d.to == i && d.event.Body? then d.event.data else []
    ensures AfterEvents(i, st, use, [d]) == if d.to == i then AfterEvent(st, use, d.event) else st
  {
    assert d in [d] && [d][..0] == [];
  }

  lemma {:induction false} AfterEventsConcat(i: nat, st: HeaderState, use: bool, a: seq<Delivery>, b: seq<Delivery>)
    requires LinesOk(a) && LinesOk(b)
    ensures LinesOk(a + b)
    ensures AfterEvents(i, st, use, a + b) == AfterEvents(i, AfterEvents(i, st, use, a), use, b)
  {
    if b == [] {
      assert a + b == a;
    } else {
      AfterEventsConcat(i, st, use, a, b[..|b| - 1]);
      assert (a + b)[..|a + b| - 1] == a + b[..|b| - 1];
    }
  }

  /** A stream as a value: its history, what a call of readBytes sets, its cache object's content. */
  datatype Snap = Snap(
    received: seq<byte>, delivered: seq<byte>, served: seq<byte>, st: HeaderState,
    use: bool, error: ErrorCode, finished: bool, fromCache: bool, callStart: nat,
    logged: seq<byte>, entry: Content, entryTags: Tags, coherent: bool, view: Content)

  /** Callbacks change the history and the header state, and nothing else but the cache content. */
  ghost predicate Advanced(a: Snap, b: Snap, i: nat, ds: seq<Delivery>, mine: bool)
    requires LinesOk(ds)
  {
    && b.received == a.received + BodyTo(i, ds)
    && b.st == AfterEvents(i, a.st, a.use, ds)
    && a.delivered <= b.delivered && (!mine ==> b.delivered == a.delivered)
    && b == a.(received := b.received, delivered := b.delivered, st := b.st, logged := b.logged,
               coherent := b.coherent, view := b.view)
  }

  /** One callback, in these terms. */
  lemma {:induction false} AdvancedOnce(a: Snap, b: Snap, i: nat, d: Delivery, mine: bool)
    requires LinesOk([d]) && d.to == i && a.delivered <= b.delivered && (!mine ==> b.delivered == a.delivered)
    requires b.st == AfterEvent(a.st, a.use, d.event)
    requires b.received == if d.event.Body? then a.received + d.event.data else a.received
    requires b.served == a.served && b.use == a.use && b.error == a.error && b.finished == a.finished
      && b.entry == a.entry
    requires b.entryTags == a.entryTags && b.fromCache == a.fromCache && b.callStart == a.callStart
    ensures Advanced(a, b, i, [d], mine)
  {
    OneEvent(i, a.st, a.use, d);
  }

  /** No body chunk goes to a stream that writes this cache object. */
  predicate Quiet(caches: seq<CacheObject>, c: CacheObject, ds: seq<Delivery>) {
    forall d | d in ds && d.event.Body? && d.to < |caches| :: caches[d.to] != c
  }

  predicate Unshared(caches: seq<CacheObject>, i: nat)
    requires i < |caches|
  {
    forall j | 0 <= j < |caches| && j != i :: caches[j] != caches[i]
  }

  /** What a series of callbacks does to all the streams of a multi handle. */
  ghost predicate Moved(a: seq<Snap>, b: seq<Snap>, caches: seq<CacheObject>, ds: seq<Delivery>, me: nat)
    requires LinesOk(ds)
  {
    && |a| == |b| == |caches|
    && forall i | 0 <= i < |a| ::
         && Advanced(a[i], b[i], i, ds, i == me)
         && (Unshared(caches, i) && a[i].coherent ==> b[i].coherent)
         && (Quiet(caches, caches[i], ds) ==> b[i].view == a[i].view)
  }

  lemma {:induction false} MovedNowhere(a: seq<Snap>, caches: seq<CacheObject>, me: nat)
    requires |a| == |caches|
    ensures Moved(a, a, caches, [], me)
  {
  }

  lemma {:induction false} AdvancedTwice(a: Snap, b: Snap, c: Snap, i: nat, ds: seq<Delivery>, es: seq<Delivery>,
      mine: bool)
    requires LinesOk(ds) && LinesOk(es) && LinesOk(ds + es)
    requires Advanced(a, b, i, ds, mine) && Advanced(b, c, i, es, mine)
    ensures Advanced(a, c, i, ds + es, mine)
  {
    BodyToConcat(i, ds, es);
    AfterEventsConcat(i, a.st, a.use, ds, es);
    Assoc(a.received, BodyTo(i, ds), BodyTo(i, es));
  }

  lemma {:induction false} MovedTwice(a: seq<Snap>, b: seq<Snap>, c: seq<Snap>, caches: seq<CacheObject>,
      ds: seq<Delivery>, es: seq<Delivery>, me: nat)
    requires LinesOk(ds) && LinesOk(es) && LinesOk(ds + es)
    requires Moved(a, b, caches, ds, me) && Moved(b, c, caches, es, me)
    ensures Moved(a, c, caches, ds + es, me)
  {
    forall i | 0 <= i < |a|
      ensures Advanced(a[i], c[i], i, ds + es, i == me)
      ensures Unshared(caches, i) && a[i].coherent ==> c[i].coherent
      ensures Quiet(caches, caches[i], ds + es) ==> c[i].view == a[i].view
    {
      AdvancedTwice(a[i], b[i], c[i], i, ds, es, i == me);
      if Quiet(caches, caches[i], ds + es) {
        assert forall d | d in ds || d in es :: d in ds + es;
      }
    }
  }

  lemma {:induction false} MovedOnce(a: seq<Snap>, b: seq<Snap>, c: seq<Snap>, caches: seq<CacheObject>,
      ds: seq<Delivery>, k: nat, me: nat)
    requires LinesOk(ds) && k < |ds| && LinesOk(ds[..k]) && LinesOk([ds[k]])
    requires Moved(a, b, caches, ds[..k], me) && Moved(b, c, caches, [ds[k]], me)
    ensures LinesOk(ds[..k + 1]) && Moved(a, c, caches, ds[..k + 1], me)
  {
    assert ds[..k + 1] == ds[..k] + [ds[k]];
    MovedTwice(a, b, c, caches, ds[..k], [ds[k]], me);
  }

  /** Like Moved, for a stretch of readBytes: stream `me` may take from its buffer and see messages. */
  ghost predicate Flowed(a: seq<Snap>, b: seq<Snap>, caches: seq<CacheObject>, ds: seq<Delivery>, me: nat)
    requires LinesOk(ds)
  {
    && |a| == |b| == |caches|
    && forall i | 0 <= i < |a| ::
         && (i != me ==> Advanced(a[i], b[i], i, ds, false))
         && (i == me ==> Drawn(a[i], b[i], i, ds))
         && (Unshared(caches, i) && a[i].coherent ==> b[i].coherent)
         && (Quiet(caches, caches[i], ds) ==> b[i].view == a[i].view)
  }

  /** The reading stream: everything received is still accounted for, nothing delivered is taken back. */
  ghost predicate Drawn(a: Snap, b: Snap, i: nat, ds: seq<Delivery>)
    requires LinesOk(ds)
  {
    && b.received == a.received + BodyTo(i, ds)
    && b.st == AfterEvents(i, a.st, a.use, ds)
    && a.delivered <= b.delivered
    && b.use == a.use && b.served == a.served && b.finished == a.finished && b.entry == a.entry
    && b.entryTags == a.entryTags
  }

  lemma {:induction false} FlowedTwice(a: seq<Snap>, b: seq<Snap>, c: seq<Snap>, caches: seq<CacheObject>,
      ds: seq<Delivery>, es: seq<Delivery>, me: nat)
    requires LinesOk(ds) && LinesOk(es) && LinesOk(ds + es)
    requires Flowed(a, b, caches, ds, me) && Flowed(b, c, caches, es, me)
    ensures Flowed(a, c, caches, ds + es, me)
  {
    forall i | 0 <= i < |a|
      ensures i != me ==> Advanced(a[i], c[i], i, ds + es, false)
      ensures i == me ==> Drawn(a[i], c[i], i, ds + es)
      ensures Unshared(caches, i) && a[i].coherent ==> c[i].coherent
      ensures Quiet(caches, caches[i], ds + es) ==> c[i].view == a[i].view
    {
      if i == me {
        BodyToConcat(i, ds, es);
        AfterEventsConcat(i, a[i].st, a[i].use, ds, es);
        Assoc(a[i].received, BodyTo(i, ds), BodyTo(i, es));
      } else {
        AdvancedTwice(a[i], b[i], c[i], i, ds, es, false);
      }
      if Quiet(caches, caches[i], ds + es) {
        assert forall d | d in ds || d in es :: d in ds + es;
      }
    }
  }

  lemma {:induction false} MovedFlows(a: seq<Snap>, b: seq<Snap>, c: seq<Snap>, caches: seq<CacheObject>,
      ds: seq<Delivery>, me: nat)
    requires LinesOk(ds) && Moved(a, b, caches, ds, me) && Flowed(b, c, caches, [], me)
    ensures Flowed(a, c, caches, ds, me)
  {
    forall i | 0 <= i < |a|
      ensures i == me ==> Drawn(a[i], b[i], i, ds)
      ensures i != me ==> Advanced(a[i], b[i], i, ds, false)
    {
      assert Advanced(a[i], b[i], i, ds, i == me);
    }
    assert ds + [] == ds;
    FlowedTwice(a, b, c, caches, ds, [], me);
  }

  /** What the bursts make readBytes throw on stream i. */
  function ErrorOf(bursts: seq<Burst>, i: nat): Option<ErrorCode> {
    if bursts == [] then None
    else if ErrorOf(bursts[..|bursts| - 1], i).Some? then ErrorOf(bursts[..|bursts| - 1], i)
    else FirstError(bursts[|bursts| - 1].messages, CodeOf(bursts[|bursts| - 1], i))
  }

  /** The bursts make stream i turn to its cache object. */
  predicate Seen304(bursts: seq<Burst>, i: nat) {
    bursts != [] && (Seen304(bursts[..|bursts| - 1], i) || Says304(bursts[|bursts| - 1].messages,
      CodeOf(bursts[|bursts| - 1], i)))
  }

  /** A message that makes no read throw on a handle with this response code. */
  predicate Harmless(m: Message, code: int) {
    m.Done? ==> m.result == CURLE_OK && code in {0, 200, 304}
  }

  /** A message that does, and the error: from the end of the transfer, or else from the response code. */
  predicate Blamed(m: Message, code: int, e: ErrorCode) {
    && m.Done?
    && (e == READ_FAILED <==> m.result in {CURLE_RECV_ERROR, CURLE_OTHER})
    && (e == CONNECT_FAILED <==>
          || m.result in {CURLE_UNSUPPORTED_PROTOCOL, CURLE_COULDNT_RESOLVE, CURLE_COULDNT_CONNECT}
          || (m.result == CURLE_OK && code in {301, 302}))
    && (e == ACCESS_DENIED <==> m.result == CURLE_OK && code in {401, 403, 407})
    && (e == NOT_FOUND <==>
          || m.result == CURLE_REMOTE_FILE_NOT_FOUND
          || (m.result == CURLE_OK && code !in {0, 200, 304, 301, 302, 401, 403, 407}))
    && e != NONE
  }

  /** The message at n is one with property p, and those before it are harmless. */
  predicate FirstBlamed(ms: seq<Message>, code: int, e: ErrorCode, n: nat) {
    n < |ms| && Blamed(ms[n], code, e) && forall j | 0 <= j < n :: Harmless(ms[j], code)
  }

  predicate First304(ms: seq<Message>, code: int, n: nat) {
    n < |ms| && ms[n] == Done(CURLE_OK) && code == 304 && forall j | 0 <= j < n :: Harmless(ms[j], code)
  }

  /** The first message that is not harmless decides; a stream turns to its cache at the first that reports a 304. */
  lemma {:induction false} FirstErrorExactly(ms: seq<Message>, code: int, e: ErrorCode)
    ensures FirstError(ms, code) == Some(e) <==> exists n: nat :: FirstBlamed(ms, code, e, n)
    ensures FirstError(ms, code) == None <==> forall m | m in ms :: Harmless(m, code)
    ensures Says304(ms, code) <==> exists n: nat :: First304(ms, code, n)
  {
    if ms != [] {
      var rest := ms[1..];
      FirstErrorExactly(rest, code, e);
      assert ms == [ms[0]] + rest;
      OneBlamed(ms[0], code, e);
      forall n: nat
        ensures n > 0 && Harmless(ms[0], code) ==> FirstBlamed(ms, code, e, n) == FirstBlamed(rest, code, e, n - 1)
        ensures n > 0 && Harmless(ms[0], code) ==> First304(ms, code, n) == First304(rest, code, n - 1)
      {
        if n > 0 {
          assert forall j | 0 < j < |ms| :: ms[j] == rest[j - 1];
        }
      }
      if MessageError(ms[0], code).None? {
        if n: nat :| FirstBlamed(rest, code, e, n) {
          assert FirstBlamed(ms, code, e, n + 1);
        }
        if n: nat :| First304(rest, code, n) {
          assert First304(ms, code, n + 1);
        }
      } else {
        assert MessageError(ms[0], code) == Some(e) ==> FirstBlamed(ms, code, e, 0);
      }
      assert ms[0] == Done(CURLE_OK) && code == 304 ==> First304(ms, code, 0);
    }
  }

  lemma {:induction false} OneBlamed(m: Message, code: int, e: ErrorCode)
    ensures MessageError(m, code) == Some(e) <==> Blamed(m, code, e)
    ensures MessageError(m, code) == None <==> Harmless(m, code)
  {
  }

  /** What burst k makes readBytes throw on stream i, by the stream's own response code; 0 stands for none. */
  function HeardIn(bursts: seq<Burst>, k: nat, i: nat): Option<ErrorCode>
    requires k < |bursts|
  {
    FirstError(bursts[k].messages, if i < |bursts[k].codes| then bursts[k].codes[i] else 0)
  }

  predicate First(bursts: seq<Burst>, i: nat, k: nat, e: ErrorCode) {
    k < |bursts| && HeardIn(bursts, k, i) == Some(e) && forall j | 0 <= j < k :: HeardIn(bursts, j, i) == None
  }

  predicate Turns(bursts: seq<Burst>, i: nat, k: nat) {
    k < |bursts| && Says304(bursts[k].messages, if i < |bursts[k].codes| then bursts[k].codes[i] else 0)
  }

  /** The first burst with an error for the stream decides, and any that reports a 304 turns it to its cache. */
  lemma {:induction false} HeardExactly(bursts: seq<Burst>, i: nat, e: ErrorCode)
    ensures ErrorOf(bursts, i) == Some(e) <==> exists k: nat :: First(bursts, i, k, e)
    ensures ErrorOf(bursts, i) == None <==> forall k | 0 <= k < |bursts| :: HeardIn(bursts, k, i) == None
    ensures Seen304(bursts, i) <==> exists k: nat :: Turns(bursts, i, k)
  {
    if bursts != [] {
      var n := |bursts| - 1;
      var before := bursts[..n];
      HeardExactly(before, i, e);
      forall k: nat | k < n
        ensures HeardIn(bursts, k, i) == HeardIn(before, k, i) && Turns(bursts, i, k) == Turns(before, i, k)
      {
        assert bursts[k] == before[k];
      }
      forall k: nat | k < n
        ensures First(bursts, i, k, e) == First(before, i, k, e)
      {
        assert forall j | 0 <= j < k :: HeardIn(bursts, j, i) == HeardIn(before, j, i);
      }
      if k: nat :| First(before, i, k, e) {
        assert First(bursts, i, k, e);
      }
      if k: nat :| Turns(before, i, k) {
        assert Turns(bursts, i, k);
      }
      assert Turns(bursts, i, n) <==> Says304(bursts[n].messages, CodeOf(bursts[n], i));
      assert ErrorOf(before, i) == None && HeardIn(bursts, n, i) == Some(e) ==> First(bursts, i, n, e);
    }
  }

  /** No transfer is left running. */
  predicate RanDown(used: seq<Burst>, rest: seq<Burst>) {
    rest == [] || (used != [] && used[|used| - 1].running == 0)
  }

  /** libcurl wants to be called again at once: it has said so, and no transfer has ended. */
  predicate AsksAgain(b: Burst) {
    b.callAgain && forall m | m in b.messages :: !m.Done?
  }

  /**
   A call of readBytes(max) on stream i has come to its end with these bursts, when `held` bytes were
   in the overflow buffer: the request is full, an error or a 304 is heard, nothing runs any more, or
   there are bytes and libcurl does not ask to be called again.
   */
  predicate Satisfied(used: seq<Burst>, i: nat, held: int, max: nat) {
    var n := held + |BodyTo(i, Deliveries(used))|;
    || max <= n || ErrorOf(used, i).Some? || Seen304(used, i)
    || (used != [] && (used[|used| - 1].running == 0 || (0 < n && !AsksAgain(used[|used| - 1]))))
  }

  /**
   A call uses the first k bursts: the shortest part that brings it to its end, or the whole script.
   A stream that has turned to its cache object uses none.
   */
  ghost predicate StopsAfter(script: seq<Burst>, k: nat, i: nat, a: Snap, max: nat) {
    && k <= |script| && (a.fromCache ==> k == 0)
    && (!a.fromCache ==>
          && Unsatisfied(script, k, i, HeldBy(a), max)
          && (k < |script| ==> Satisfied(script[..k], i, HeldBy(a), max)))
  }

  ghost predicate Unsatisfied(script: seq<Burst>, k: nat, i: nat, held: int, max: nat)
    requires k <= |script|
  {
    forall j | 0 <= j < k :: !Satisfied(script[..j], i, held, max)
  }

  /** What tryAgain is after these bursts, when something still runs. */
  predicate Told(used: seq<Burst>, tryAgain: bool) {
    if used == [] then tryAgain
    else used[|used| - 1].running != 0 && tryAgain == AsksAgain(used[|used| - 1])
  }

  lemma {:induction false} UsedOn(script: seq<Burst>, rest: seq<Burst>, rest': seq<Burst>, i: nat, held: int, max: nat)
    requires |rest'| <= |rest| <= |script| <= |script| + |rest'| - |rest| + 1
    requires Unsatisfied(script, |Used(script, rest)|, i, held, max)
    requires |rest'| < |rest| ==> !Satisfied(Used(script, rest), i, held, max)
    ensures Unsatisfied(script, |Used(script, rest')|, i, held, max)
  {
  }

  /** So there is one such part, for every script. */
  lemma {:induction false} StopsOnce(script: seq<Burst>, k: nat, i: nat, a: Snap, max: nat)
    requires k <= |script|
    ensures exists n: nat :: StopsAfter(script, n, i, a, max)
    ensures StopsAfter(script, k, i, a, max) ==> forall n: nat | StopsAfter(script, n, i, a, max) :: n == k
  {
    var held, n := HeldBy(a), 0;
    while !a.fromCache && n < |script| && !Satisfied(script[..n], i, held, max)
      invariant n <= |script| && (a.fromCache ==> n == 0) && Unsatisfied(script, n, i, held, max)
    {
      n := n + 1;
    }
    assert StopsAfter(script, n, i, a, max);
  }

  /** How many bytes are in the overflow buffer. */
  function HeldBy(a: Snap): int {
    |a.received| - |a.delivered|
  }

  /** Where a call of readBytes stops, and how many network bytes it hands over: all there are, up to `max`. */
  ghost predicate StopsRight(start: Start, rest: seq<Burst>, c: Snap, max: nat) {
    && start.me < |start.views| && |rest| <= |start.script|
    && var a, used := start.views[start.me], Used(start.script, rest);
       && StopsAfter(start.script, |used|, start.me, a, max)
       && |c.delivered| - |a.delivered| ==
          if a.fromCache then 0 else Min(max, HeldBy(a) + |BodyTo(start.me, Deliveries(used))|)
  }

  lemma {:induction false} StopsStill(start: Start, rest: seq<Burst>, b: Snap, c: Snap, max: nat)
    requires StopsRight(start, rest, b, max) && c.delivered == b.delivered
    ensures StopsRight(start, rest, c, max)
  {
  }

  /** The script is at `rest`, and what came before it has reached the streams. */
  ghost predicate Progress(script: seq<Burst>, rest: seq<Burst>, a: seq<Snap>, b: seq<Snap>, caches: seq<CacheObject>,
      me: nat) {
    && |rest| <= |script| && rest == script[|script| - |rest|..]
    && LinesOk(Deliveries(script[..|script| - |rest|]))
    && Flowed(a, b, caches, Deliveries(script[..|script| - |rest|]), me)
  }

  function Used(script: seq<Burst>, rest: seq<Burst>): seq<Burst> {
    if |rest| <= |script| then script[..|script| - |rest|] else []
  }

  /** Where a call of readBytes began. */
  datatype Start = Start(script: seq<Burst>, views: seq<Snap>, delivered: seq<byte>, fromCache: bool, me: nat)

  lemma {:induction false} ProgressStart(script: seq<Burst>, a: seq<Snap>, b: seq<Snap>, caches: seq<CacheObject>,
      me: nat)
    requires Flowed(a, b, caches, [], me)
    ensures Used(script, script) == [] && Progress(script, script, a, b, caches, me)
  {
    assert script[..0] == [];
  }

  lemma {:induction false} ProgressBuffer(script: seq<Burst>, rest: seq<Burst>, a: seq<Snap>, b: seq<Snap>,
      c: seq<Snap>, caches: seq<CacheObject>, me: nat)
    requires Progress(script, rest, a, b, caches, me) && Flowed(b, c, caches, [], me)
    ensures Progress(script, rest, a, c, caches, me)
  {
    var ds := Deliveries(script[..|script| - |rest|]);
    assert ds + [] == ds;
    FlowedTwice(a, b, c, caches, ds, [], me);
  }

  lemma {:induction false} ProgressBurst(script: seq<Burst>, rest: seq<Burst>, burst: Burst, a: seq<Snap>, b: seq<Snap>,
      c: seq<Snap>, caches: seq<CacheObject>, me: nat)
    requires Progress(script, rest, a, b, caches, me)
    requires burst == if rest == [] then NO_BURST else rest[0]
    requires LinesOk(burst.deliveries) && Flowed(b, c, caches, burst.deliveries, me)
    ensures Progress(script, if rest == [] then [] else rest[1..], a, c, caches, me)
    ensures var used := Used(script, rest);
      var used' := Used(script, if rest == [] then [] else rest[1..]);
      && ErrorOf(used', me) == (if ErrorOf(used, me).Some? then ErrorOf(used, me) else FirstError(burst.messages,
        CodeOf(burst, me)))
      && Seen304(used', me) == (Seen304(used, me) || Says304(burst.messages, CodeOf(burst, me)))
      && (burst.running == 0 ==> RanDown(used', if rest == [] then [] else rest[1..]))
  {
    if rest == [] {
      ProgressBuffer(script, rest, a, b, c, caches, me);
    } else {
      var k := |script| - |rest|;
      assert rest[0] == script[k] && rest[1..] == script[k + 1..];
      DeliveriesSnoc(script, k);
      var ds := Deliveries(script[..k]);
      assert LinesOk(ds + burst.deliveries);
      FlowedTwice(a, b, c, caches, ds, burst.deliveries, me);
      assert script[..k + 1][..k] == script[..k];
    }
  }

  /** readBytes rewinds the cache object when there was nothing more to read. */
  function AfterServe(c: Content, n: nat): (r: Content)
    requires c.Readable()
    ensures r.Readable()
  {
    if ReadOut(c, n) == [] then AfterReset(AfterRead(c, n)) else AfterRead(c, n)
  }

  /** The end of readBytes: stream `me` may have been served from its cache object. */
  ghost predicate Served(b: seq<Snap>, c: seq<Snap>, caches: seq<CacheObject>, me: nat) {
    && |b| == |c| == |caches|
    && forall i | 0 <= i < |b| ::
         && c[i] == b[i].(served := c[i].served, finished := c[i].finished, coherent := c[i].coherent,
           view := c[i].view)
         && (i != me ==> c[i].served == b[i].served && c[i].finished == b[i].finished)
         && (Unshared(caches, i) && b[i].coherent ==> c[i].coherent)
         && (me < |caches| && caches[i] != caches[me] ==> c[i].view == b[i].view)
         && (b[i].view.Readable() ==> c[i].view.Readable())
  }

  /** A read that gave nothing has rewound the cache object: the next one starts over. */
  lemma {:induction false} ServesOverAgain(data: seq<byte>, pos: nat, n: nat, m: nat)
    requires pos <= |data| && 0 < n && ReadOut(Reading(data, pos), n) == []
    ensures pos == |data| && ReadOut(AfterServe(Reading(data, pos), n), m) == data[..Min(m, |data|)]
  {
  }

  lemma {:induction false} DeliveriesPrefix(script: seq<Burst>, k: nat)
    requires k <= |script|
    ensures forall d | d in Deliveries(script[..k]) :: d in Deliveries(script)
    ensures forall i :: Seen304(script[..k], i) ==> Seen304(script, i)
    decreases |script|
  {
    if k < |script| {
      DeliveriesPrefix(script[..|script| - 1], k);
      assert script[..|script| - 1][..k] == script[..k];
    } else {
      assert script[..k] == script;
    }
  }

  /** What one call of readBytes does to stream i. */
  ghost predicate ConsumedAt(a: Snap, c: Snap, i: nat, ds: seq<Delivery>, mine: bool)
    requires LinesOk(ds)
  {
    && c.received == a.received + BodyTo(i, ds)
    && c.st == AfterEvents(i, a.st, a.use, ds)
    && c.use == a.use && c.entry == a.entry && c.entryTags == a.entryTags
    && (!mine ==>
      c.delivered == a.delivered && c.served == a.served && c.error == a.error && c.fromCache == a.fromCache)
  }

  /**
   What one call of readBytes on stream `me` does to all the streams: each has received its part of
   the used bursts and nothing else; only the reading stream hands bytes over; and every stream
   that has its cache object to itself keeps it in step.
   */
  ghost predicate Consumed(start: Start, rest: seq<Burst>, c: seq<Snap>, caches: seq<CacheObject>, me: nat) {
    var a, ds := start.views, Deliveries(Used(start.script, rest));
    && |rest| <= |start.script| && rest == start.script[|start.script| - |rest|..] && LinesOk(ds)
    && |a| == |c| == |caches|
    && forall i | 0 <= i < |a| ::
         && ConsumedAt(a[i], c[i], i, ds, i == me)
         && (Quiet(caches, caches[i], ds) && a[i].view.Readable() ==> c[i].view.Readable())
         && (Unshared(caches, i) && a[i].coherent ==> c[i].coherent)
  }

  lemma {:induction false} FlowedConsumesAt(a: seq<Snap>, b: seq<Snap>, c: seq<Snap>, caches: seq<CacheObject>,
      ds: seq<Delivery>, me: nat, i: nat)
    requires LinesOk(ds) && Flowed(a, b, caches, ds, me) && (b == c || Served(b, c, caches, me)) && i < |a|
    ensures ConsumedAt(a[i], c[i], i, ds, i == me)
    ensures Unshared(caches, i) && a[i].coherent ==> c[i].coherent
    ensures Quiet(caches, caches[i], ds) && a[i].view.Readable() ==> c[i].view.Readable()
  {
    assert i != me ==> Advanced(a[i], b[i], i, ds, false);
    assert i == me ==> Drawn(a[i], b[i], i, ds);
  }

  lemma {:induction false} FlowedConsumesAll(a: seq<Snap>, b: seq<Snap>, c: seq<Snap>, caches: seq<CacheObject>,
      ds: seq<Delivery>, me: nat)
    requires LinesOk(ds) && Flowed(a, b, caches, ds, me) && (b == c || Served(b, c, caches, me))
    ensures |a| == |c| == |caches|
    ensures forall i | 0 <= i < |a| ::
      && ConsumedAt(a[i], c[i], i, ds, i == me) && (Unshared(caches, i) && a[i].coherent ==> c[i].coherent)
      && (Quiet(caches, caches[i], ds) && a[i].view.Readable() ==> c[i].view.Readable())
  {
    forall i | 0 <= i < |a|
      ensures ConsumedAt(a[i], c[i], i, ds, i == me) && (Unshared(caches, i) && a[i].coherent ==> c[i].coherent)
      ensures Quiet(caches, caches[i], ds) && a[i].view.Readable() ==> c[i].view.Readable()
    {
      FlowedConsumesAt(a, b, c, caches, ds, me, i);
    }
  }

  lemma {:induction false} FlowedConsumes(start: Start, rest: seq<Burst>, b: seq<Snap>, c: seq<Snap>,
      caches: seq<CacheObject>, me: nat)
    requires Progress(start.script, rest, start.views, b, caches, me)
    requires b == c || Served(b, c, caches, me)
    ensures Consumed(start, rest, c, caches, me)
  {
    FlowedConsumesAll(start.views, b, c, caches, Deliveries(Used(start.script, rest)), me);
  }

  /** The bytes a stream gets from its cache object, if it got a 304, with `want` to go. */
  function Answer(b: Snap, want: nat): seq<byte> {
    if b.use && b.fromCache && b.view.Readable() then ReadOut(b.view, want) else []
  }

  /** What readBytes counts, with `n` network bytes in the buffer. */
  function Counted(b: Snap, n: nat, want: nat): nat {
    if b.use && b.fromCache then |Answer(b, want)| else n
  }

  /** The last part of readBytes: a stream that got a 304 turns to its cache object. */
  ghost predicate Answered(b: Snap, c: Snap, before: seq<byte>, after: seq<byte>, n: nat, want: nat) {
    && c == b.(served := b.served + Answer(b, want), coherent := c.coherent, view := c.view)
    && (b.coherent ==> c.coherent)
    && n + want <= |before| == |after| && after[..n] == before[..n]
    && n + |Answer(b, want)| <= |after| && after[n..n + |Answer(b, want)|] == Answer(b, want)
    && (b.use && b.fromCache ==> b.view.Readable() && c.view == AfterServe(b.view, want))
    && (!(b.use && b.fromCache) ==> c.view == b.view)
  }

  /** The end of readBytes on the stream itself. */
  ghost predicate Concluded(b: Snap, c: Snap, r: Outcome, before: seq<byte>, after: seq<byte>, n: nat, want: nat) {
    && Answered(b, c.(finished := b.finished), before, after, n, want)
    && c.finished == (b.finished || c.st.length == |c.delivered| + |c.served|)
    && r == if c.error != NONE then Failed else Count(Counted(b, n, want))
  }

  /** What the caller of readBytes sees, and what the stream keeps of it. */
  ghost predicate Returned(start: Start, rest: seq<Burst>, a: Snap, c: Snap, r: Outcome, buffer: seq<byte>, max: nat) {
    var used, w := Used(start.script, rest), |c.delivered| - |a.delivered|;
    // the network bytes of this call stand at the start of the caller's buffer
    && 0 <= w <= max <= |buffer| && c.delivered == a.delivered + buffer[..w]
    && c.fromCache == (a.fromCache || Seen304(used, start.me))
    && (a.fromCache ==> w == 0 && rest == start.script)
    && match ErrorOf(used, start.me)
       case Some(e) => r == Thrown(e) && c.error == e && c.served == a.served && c.finished == a.finished
       case None =>
         // what stood in the cache object follows them
         var b := a.(use := c.use, fromCache := c.fromCache);
         && c.error == a.error && r == (if c.error != NONE then Failed else Count(Counted(b, w, max - w)))
         && c.served == a.served + Answer(b, max - w)
         && w + |Answer(b, max - w)| <= max && buffer[w..w + |Answer(b, max - w)|] == Answer(b, max - w)
         && (c.use && c.fromCache ==> a.view.Readable() && c.view == AfterServe(a.view, max - w))
         && c.finished == (a.finished || c.st.length == |c.delivered| + |c.served|)
  }

  /** The caller's buffer and the stream when the loop of readBytes is done. */
  ghost predicate Pumped(start: Start, rest: seq<Burst>, a: Snap, b: Snap, buffer: seq<byte>, n: nat, max: nat) {
    && n <= max <= |buffer| && |a.delivered| + n == |b.delivered| && b.delivered == a.delivered + buffer[..n]
    && b.fromCache == (a.fromCache || Seen304(Used(start.script, rest), start.me))
    && (a.fromCache ==> n == 0 && rest == start.script)
    && b.use == a.use && b.served == a.served && b.finished == a.finished
  }

  lemma {:induction false} PumpedSo(start: Start, rest: seq<Burst>, b: seq<Snap>, caches: seq<CacheObject>, me: nat,
      buffer: seq<byte>, n: nat, max: nat)
    requires Progress(start.script, rest, start.views, b, caches, me) && me < |b|
    requires var a, v := start.views[me], b[me];
      && start.fromCache == a.fromCache && start.delivered == a.delivered
      && v.fromCache == (start.fromCache || Seen304(Used(start.script, rest), start.me))
      && (start.fromCache ==> rest == start.script && v.delivered == a.delivered)
      && n <= max <= |buffer| && |a.delivered| + n == |v.delivered| && buffer[..n] == v.delivered[|a.delivered|..]
    ensures Pumped(start, rest, start.views[me], b[me], buffer, n, max)
  {
    var a, v := start.views[me], b[me];
    assert Drawn(a, v, me, Deliveries(Used(start.script, rest)));
    SplitAt(a.delivered, v.delivered, buffer[..n]);
  }

  lemma {:induction false} SplitAt(a: seq<byte>, all: seq<byte>, b: seq<byte>)
    requires a <= all && b == all[|a|..]
    ensures all == a + b
  {
  }

  lemma {:induction false} ThrownReturns(start: Start, rest: seq<Burst>, a: Snap, b: Snap, e: ErrorCode,
      buffer: seq<byte>, n: nat, max: nat)
    requires Pumped(start, rest, a, b, buffer, n, max) && ErrorOf(Used(start.script, rest), start.me) == Some(e)
      && b.error == e
    ensures Returned(start, rest, a, b, Thrown(e), buffer, max)
  {
  }

  lemma {:induction false} ReturnedBy(start: Start, rest: seq<Burst>, a: Snap, c: Snap, r: Outcome, buffer: seq<byte>,
      n: nat, max: nat)
    requires |c.delivered| - |a.delivered| == n <= max <= |buffer| && c.delivered == a.delivered + buffer[..n]
    requires c.fromCache == (a.fromCache || Seen304(Used(start.script, rest), start.me))
    requires a.fromCache ==> n == 0 && rest == start.script
    requires ErrorOf(Used(start.script, rest), start.me) == None && c.error == a.error
    requires var b := a.(use := c.use, fromCache := c.fromCache);
      && r == (if c.error != NONE then Failed else Count(Counted(b, n, max - n)))
      && c.served == a.served + Answer(b, max - n)
      && n + |Answer(b, max - n)| <= max && buffer[n..n + |Answer(b, max - n)|] == Answer(b, max - n)
    requires c.use && c.fromCache ==> a.view.Readable() && c.view == AfterServe(a.view, max - n)
    requires c.finished == (a.finished || c.st.length == |c.delivered| + |c.served|)
    ensures Returned(start, rest, a, c, r, buffer, max)
  {
  }

  lemma {:induction false} ConcludedReturns(start: Start, rest: seq<Burst>, a: Snap, b: Snap, c: Snap, r: Outcome,
      before: seq<byte>, after: seq<byte>, n: nat, want: nat, max: nat)
    requires Pumped(start, rest, a, b, before, n, max) && ErrorOf(Used(start.script, rest), start.me) == None
      && b.error == a.error
    requires Concluded(b, c, r, before, after, n, want) && n + want == max
    requires b.use && b.fromCache ==> a.view == b.view
    ensures Returned(start, rest, a, c, r, after, max)
  {
    var b' := a.(use := c.use, fromCache := c.fromCache);
    SameAnswer(b, b', n, want);
    SplicePrefix(a.delivered, before, after, n);
    assert |c.delivered| - |a.delivered| == n && max - n == want;
    ReturnedBy(start, rest, a, c, r, after, n, max);
  }

  /** What the cache object gives depends on the answer and on the cache object only. */
  lemma {:induction false} SameAnswer(a: Snap, b: Snap, n: nat, want: nat)
    requires a.use == b.use && a.fromCache == b.fromCache && (a.use && a.fromCache ==> a.view == b.view)
    ensures Answer(a, want) == Answer(b, want) && Counted(a, n, want) == Counted(b, n, want)
  {
  }

  lemma {:induction false} SplicePrefix(a: seq<byte>, before: seq<byte>, after: seq<byte>, n: nat)
    requires n <= |before| == |after| && after[..n] == before[..n]
    ensures a + before[..n] == a + after[..n] && |a + after[..n]| == |a| + n
  {
  }

  lemma {:induction false} OwnFlows(a: seq<Snap>, b: seq<Snap>, caches: seq<CacheObject>, me: nat)
    requires |a| == |b| == |caches| && me < |a|
    requires forall i | 0 <= i < |a| && i != me :: b[i] == a[i]
    requires b[me].coherent == a[me].coherent && b[me].view == a[me].view && a[me].delivered <= b[me].delivered
    requires var s := b[me];
      && s.received == a[me].received && s.st == a[me].st && s.use == a[me].use && s.served == a[me].served
      && s.finished == a[me].finished && s.entry == a[me].entry && s.entryTags == a[me].entryTags
    ensures Flowed(a, b, caches, [], me)
  {
  }

  // ---- The stream ------------------------------------------------

  /** How readBytes ends: with a count, with -1, or with an XmlError thrown. */
  datatype Outcome = Count(n: nat) | Failed | Thrown(error: ErrorCode)

  class HttpStream {
    const sURL: string
    const cacheObject: CacheObject
    const bDeleteCache: bool
    var bUseCache: bool
    var mErrorCode: ErrorCode

    var fTotalBytesRead: nat
    // fWritePtr points into the caller's buffer fTarget
    var fTarget: array?<byte>
    var fWritePtr: nat
    var fBytesRead: nat
    var fBytesToRead: nat
    // the overflow buffer; [] is the null pointer
    var fBuffer: seq<byte>
    var fBufferSize: nat
    var fBufferHead: nat

    var hContent_length_response: nat
    var bStoreCache: bool
    var bTransferFinished: bool
    var bStreamFromCache: bool

    // History: body bytes pushed by curl, bytes of them handed to the caller, bytes handed over
    // from the cache, bytes written to the cache object, and whether all and any were written.
    ghost var received: seq<byte>
    ghost var delivered: seq<byte>
    ghost var served: seq<byte>
    ghost var logged: seq<byte>
    ghost var whole: bool
    ghost var began: bool
    // |delivered| when the current call of readBytes began
    ghost var callStart: nat
    /** The conditional headers of the request. */
    const request: Conditional
    // the validators that the cache object should hold
    ghost var tags: Tags
    /** What the cache object held when the stream was opened, and its validators then. */
    ghost const entry: Content
    ghost const entryTags: Tags

    /** FIFO conservation: what came in is what went out followed by the overflow buffer. */
    ghost predicate Conserved()
      reads this
    {
      && received == delivered + fBuffer
      && fBufferHead == fBufferSize == |fBuffer|
      && fTotalBytesRead == |delivered| + |served|
      && (whole ==> logged == received)
      && (!began ==> logged == []) && (began ==> bUseCache && bStoreCache)
    }

    /** The caller's buffer holds what this call has delivered so far. */
    ghost predicate Filled(target: array<byte>)
      reads this, target
    {
      && fTarget == target && fWritePtr == fBytesRead && fBytesRead + fBytesToRead <= target.Length
      && callStart + fBytesRead == |delivered|
      && target[..fBytesRead] == delivered[callStart..]
    }

    /**
     The cache object, when nobody else uses it, holds what this stream has written to it, or what
     it held from the start, partly read once this stream has been served from it.
     */
    ghost predicate Coherent()
      reads this`began, this`logged, this`served, this`tags
      reads cacheObject`eState, cacheObject`content, cacheObject`pos, cacheObject`sound, cacheObject`headers
    {
      && (entry.Nothing? || entry.Stored?) && TagsOf(cacheObject.headers) == tags
      && if began then cacheObject.View() == Writing(logged)
         else if served == [] then cacheObject.View() == entry
         else AfterReset(cacheObject.View()) == entry
    }

    /** setupConnection: a cached object is taken over, otherwise a new one comes along. */
    constructor (url: string, cache: CacheObject, isNew: bool)
      ensures Conserved() && cacheObject == cache && bDeleteCache == isNew && sURL == url
      ensures bUseCache && mErrorCode == NONE && fBytesToRead == 0
      ensures received == delivered == served == logged == [] && whole && !began
      ensures entry == cache.View() && entryTags == tags == TagsOf(cache.headers)
      ensures request == if isNew then Conditional(None, None) else ConditionalHeaders(cache.headers)
      ensures (entry.Nothing? || entry.Stored? ==> Coherent())
      ensures !bStoreCache && !bTransferFinished && !bStreamFromCache && hContent_length_response == 0
    {
      sURL, cacheObject, bDeleteCache := url, cache, isNew;
      bUseCache, mErrorCode := true, NONE;
      fTotalBytesRead, fTarget, fWritePtr, fBytesRead, fBytesToRead := 0, null, 0, 0, 0;
      fBuffer, fBufferSize, fBufferHead, hContent_length_response := [], 0, 0, 0;
      bStoreCache, bTransferFinished, bStreamFromCache := false, false, false;
      received, delivered, served, logged, whole, began, callStart := [], [], [], [], true, false, 0;
      entry, entryTags, tags := cache.View(), TagsOf(cache.headers), TagsOf(cache.headers);
      request := if isNew then Conditional(None, None) else ConditionalHeaders(cache.headers);
    }

    method UseCache(setting: bool)
      requires Conserved() && !began
      modifies this`bUseCache
      ensures bUseCache == setting && Conserved()
    {
      bUseCache := setting;
    }

    /** What is left over when the caller has enough goes to the end of the overflow buffer. */
    method Rebuffer(rest: seq<byte>)
      requires fBufferHead == fBufferSize == |fBuffer|
      modifies this`fBuffer, this`fBufferSize, this`fBufferHead
      ensures fBuffer == old(fBuffer) + rest && fBufferHead == fBufferSize == |fBuffer|
      ensures State() == old(State()) && Aside() == old(Aside())
    {
      var cnt := |rest|;
      if cnt > 0 {
        if fBufferSize == 0 {
          fBuffer := seq(cnt, _ => 0);
          fBufferSize := fBufferSize + cnt;
          fBufferHead := 0;
        } else {
          fBuffer := fBuffer + seq(cnt, _ => 0);
          fBufferSize := fBufferSize + cnt;
        }
        fBuffer := fBuffer[..fBufferHead] + rest + fBuffer[fBufferHead + cnt..];
        fBufferHead := fBufferHead + cnt;
      }
    }

    /** memcpy to the caller's buffer, with the counters moved along. */
    method HandOver(bytes: seq<byte>, ghost target: array<byte>)
      requires |bytes| <= fBytesToRead && (fBytesToRead > 0 ==> Filled(target))
      modifies this`fWritePtr, this`fBytesRead, this`fTotalBytesRead, this`fBytesToRead, this`delivered
      modifies if fBytesToRead > 0 then {target} else {}
      ensures delivered == old(delivered) + bytes
      ensures fBytesToRead == old(fBytesToRead) - |bytes| && fBytesRead == old(fBytesRead) + |bytes|
      ensures fTotalBytesRead == old(fTotalBytesRead) + |bytes|
      ensures State() == old(State()) && Aside() == old(Aside())
      ensures old(Filled(target)) ==> Filled(target)
    {
      if fBytesToRead > 0 {
        Overwrite(fTarget, fWritePtr, |bytes|, bytes);
        assert fTarget[..fWritePtr + |bytes|] == fTarget[..fWritePtr] + fTarget[fWritePtr..fWritePtr + |bytes|];
        assert (delivered + bytes)[callStart..] == delivered[callStart..] + bytes;
      }
      fWritePtr := fWritePtr + |bytes|;
      fBytesRead := fBytesRead + |bytes|;
      fTotalBytesRead := fTotalBytesRead + |bytes|;
      fBytesToRead := fBytesToRead - |bytes|;
      delivered := delivered + bytes;
    }

    /** A 200 body is compressed into the cache object as it comes in. */
    method Log(buffer: seq<byte>)
      requires cacheObject.Valid()
      modifies this`logged, this`whole, this`began, cacheObject
      ensures cacheObject.Valid()
      ensures cacheObject.View() ==
        if bUseCache && bStoreCache then AfterWrite(old(cacheObject.View()), Some(buffer)) else old(cacheObject.View())
      ensures logged == old(logged) + if bUseCache && bStoreCache then buffer else []
      ensures began == (old(began) || (bUseCache && bStoreCache))
      ensures State() == AfterEvent(old(State()), bUseCache, Body(buffer)) && Aside() == old(Aside())
      ensures old((!began ==> logged == []) && Coherent()) ==> Coherent()
    {
      if bUseCache && bStoreCache {
        var _ := cacheObject.WriteBytes(Some(buffer));
        logged, began := logged + buffer, true;
      } else {
        whole := false;
      }
    }

    /** The rest of writeCallback, after `consume` bytes were handed over: cache, then rebuffer. */
    method LogAndKeep(buffer: seq<byte>, consume: nat, ghost out: seq<byte>)
      requires consume <= |buffer| && (consume > 0 ==> fBuffer == [])
      requires delivered == out + buffer[..consume] && received == out + fBuffer
      requires fBufferHead == fBufferSize == |fBuffer| && fTotalBytesRead == |delivered| + |served|
      requires (whole ==> logged == received) && (!began ==> logged == []) && (began ==> bUseCache && bStoreCache)
      requires cacheObject.Valid()
      modifies this`fBuffer, this`fBufferSize, this`fBufferHead, this`received
      modifies this`logged, this`whole, this`began, cacheObject
      ensures Conserved() && received == old(received) + buffer && cacheObject.Valid()
      ensures consume == |buffer| ==> fBuffer == old(fBuffer)
      ensures !(bUseCache && bStoreCache) ==> cacheObject.View() == old(cacheObject.View())
      ensures old(Coherent()) ==> Coherent()
      ensures State() == AfterEvent(old(State()), bUseCache, Body(buffer)) && Aside() == old(Aside())
    {
      Log(buffer);
      Splice(out, fBuffer, buffer, consume);
      Rebuffer(buffer[consume..]);
      received := received + buffer;
    }

    /** writeCallback: curl pushes a chunk. */
    method WriteCallback(buffer: seq<byte>, ghost target: array<byte>) returns (totalConsumed: nat)
      requires Conserved() && cacheObject.Valid()
      requires fBytesToRead > 0 ==> Filled(target) && fBuffer == []
      modifies this`fWritePtr, this`fBytesRead, this`fTotalBytesRead, this`fBytesToRead
      modifies this`fBuffer, this`fBufferSize, this`fBufferHead
      modifies this`received, this`delivered, this`logged, this`whole, this`began
      modifies cacheObject, if fBytesToRead > 0 then {target} else {}
      ensures Conserved() && cacheObject.Valid() && totalConsumed == |buffer|
      ensures received == old(received) + buffer
      ensures var n := Min(old(fBytesToRead), |buffer|);
        && delivered == old(delivered) + buffer[..n]
        && fBytesToRead == old(fBytesToRead) - n && fBytesRead == old(fBytesRead) + n
      ensures old(Filled(target)) ==> Filled(target)
      ensures fBytesToRead > 0 ==> fBuffer == []
      ensures !(bUseCache && bStoreCache) ==> cacheObject.View() == old(cacheObject.View())
      ensures old(Coherent()) ==> Coherent()
      ensures State() == AfterEvent(old(State()), bUseCache, Body(buffer)) && Aside() == old(Aside())
    {
      var cnt := |buffer|;
      var consume := if cnt > fBytesToRead then fBytesToRead else cnt;
      HandOver(buffer[..consume], target);
      LogAndKeep(buffer, consume, old(delivered));
      totalConsumed := consume + (cnt - consume);
    }

    /** headerCallback: ETag and Last-Modified. */
    method KeepValidator(line: string)
      requires HeaderLine(line) && Conserved() && cacheObject.Valid() && bUseCache
      modifies this`tags, cacheObject`headers
      ensures Conserved() && cacheObject.Valid() && cacheObject.View() == old(cacheObject.View())
      ensures (old(Coherent()) ==> Coherent()) && tags == TagsAfter(old(tags), line)
    {
      if Kind(line) == EtagLine {
        cacheObject.SetEtag(CString(EtagOf(line)));
      } else if Kind(line) == LastModifiedLine {
        cacheObject.SetLastModified(CString(LastModifiedOf(line)));
      }
      tags := TagsAfter(tags, line);
    }

    /** headerCallback: the status line. */
    method KeepStatus(line: string)
      requires STATUS <= line && Conserved()
      modifies this`bStoreCache
      ensures Conserved() && (old(Coherent()) ==> Coherent())
      ensures bStoreCache == (old(bStoreCache) || SaysOk(line))
    {
      var ok := ScanStatus(line);
      if ok {
        bStoreCache := true;
      }
    }

    /** headerCallback: Content-Length. */
    method KeepLength(line: string)
      requires HeaderLine(line) && Kind(line) == ContentLengthLine && Conserved()
      modifies this`hContent_length_response
      ensures Conserved() && (old(Coherent()) ==> Coherent()) && hContent_length_response == ContentLengthOf(line)
    {
      hContent_length_response := ContentLengthOf(line);
    }

    /** headerCallback */
    method HeaderCallback(line: string)
      requires HeaderLine(line) && Conserved() && cacheObject.Valid()
      modifies this`bStoreCache, this`hContent_length_response, this`tags, cacheObject`headers
      ensures Conserved() && cacheObject.Valid() && cacheObject.View() == old(cacheObject.View())
      ensures old(Coherent()) ==> Coherent()
      ensures State() == AfterEvent(old(State()), bUseCache, Header(line))
    {
      if STATUS <= line {
        KeepStatus(line);
      } else if ETAG <= line || LAST_MODIFIED <= line {
        if bUseCache {
          KeepValidator(line);
        }
      } else if CONTENT_LENGTH <= line {
        KeepLength(line);
      }
    }

    ghost function State(): HeaderState
      reads this
    {
      HeaderState(bStoreCache, hContent_length_response, whole, tags, began)
    }

    /** What callbacks leave alone. */
    ghost function Aside(): (seq<byte>, bool, ErrorCode, bool, bool, nat)
      reads this`served, this`bUseCache, this`mErrorCode, this`bTransferFinished, this`bStreamFromCache, this`callStart
    {
      (served, bUseCache, mErrorCode, bTransferFinished, bStreamFromCache, callStart)
    }

    /** What handing over and messages leave alone. */
    ghost function Record(): (seq<byte>, seq<byte>, HeaderState, bool, bool, seq<byte>)
      reads this`received, this`served, this`bStoreCache, this`hContent_length_response, this`whole, this`tags
      reads this`bUseCache, this`bTransferFinished, this`began, this`logged
    {
      (received, served, HeaderState(bStoreCache, hContent_length_response, whole, tags, began),
       bUseCache, bTransferFinished, logged)
    }

    /** Bytes left over from earlier callbacks go to the caller first. */
    method TakeBuffered(bufCnt: nat, ghost target: array<byte>)
      requires Conserved() && Filled(target) && 0 < bufCnt <= fBytesToRead && bufCnt <= fBufferSize
      modifies this`fWritePtr, this`fBytesRead, this`fTotalBytesRead, this`fBytesToRead, this`delivered
      modifies this`fBuffer, this`fBufferSize, this`fBufferHead, target
      ensures Conserved() && Filled(target)
      ensures delivered == old(delivered + fBuffer[..bufCnt]) && fBuffer == old(fBuffer[bufCnt..])
      ensures fBytesToRead == old(fBytesToRead) - bufCnt && fBytesRead == old(fBytesRead) + bufCnt
      ensures Record() == old(Record()) && callStart == old(callStart)
      ensures bStreamFromCache == old(bStreamFromCache) && mErrorCode == old(mErrorCode)
    {
      assert received == delivered + fBuffer[..bufCnt] + fBuffer[bufCnt..];
      HandOver(fBuffer[..bufCnt], target);
      if fBufferSize - bufCnt > 0 {
        fBuffer := fBuffer[bufCnt..];
        fBufferSize := fBufferSize - bufCnt;
        fBufferHead := fBufferHead - bufCnt;
      } else {
        fBuffer, fBufferSize, fBufferHead := [], 0, 0;
      }
    }

    /** The messages of one perform, until one of them throws; `httpcode` is the handle's response code. */
    method ProcessMessages(messages: seq<Message>, httpcode: int, callAgain: bool) returns (tryAgain: bool,
        thrown: Option<ErrorCode>)
      modifies this`bStreamFromCache, this`mErrorCode, cacheObject`headers
      ensures thrown == FirstError(messages, httpcode)
      ensures thrown.None? ==> tryAgain == (callAgain && forall m | m in messages :: !m.Done?)
      ensures bStreamFromCache == (old(bStreamFromCache) || Says304(messages, httpcode))
      ensures mErrorCode == if thrown.Some? then thrown.value else old(mErrorCode)
      ensures TagsOf(cacheObject.headers) == old(TagsOf(cacheObject.headers))
    {
      tryAgain, thrown := callAgain, None;
      var k := 0;
      while k < |messages|
        invariant 0 <= k <= |messages| && thrown == None && mErrorCode == old(mErrorCode)
        invariant TagsOf(cacheObject.headers) == old(TagsOf(cacheObject.headers))
        invariant FirstError(messages, httpcode) == FirstError(messages[k..], httpcode)
        invariant tryAgain == (callAgain && forall i | 0 <= i < k :: !messages[i].Done?)
        invariant (old(bStreamFromCache) || Says304(messages,
          httpcode)) == (bStreamFromCache || Says304(messages[k..], httpcode))
      {
        var msg := messages[k];
        if msg.Done? {
          tryAgain := false;
          match MessageError(msg, httpcode) {
            case Some(error) =>
              mErrorCode := error;
              return tryAgain, Some(error);
            case None =>
              if httpcode == 304 {
                bStreamFromCache := true;
              } else if bUseCache {
                cacheObject.SetHttpCode(httpcode);
              }
          }
        }
        k := k + 1;
      }
    }

    ghost function View(): Snap
      reads this, cacheObject`eState, cacheObject`content, cacheObject`pos, cacheObject`sound, cacheObject`headers
    {
      Snap(received, delivered, served, State(), bUseCache, mErrorCode, bTransferFinished, bStreamFromCache,
           callStart, logged, entry, entryTags, Coherent(), cacheObject.View())
    }

    /** Buffered data first; then the loop goes round again. */
    method BufferStep(fMulti: Multi, ghost me: nat, toFill: array<byte>, ghost maxToRead: nat)
      requires fMulti.Wired() && me < |fMulti.handles| && fMulti.handles[me] == this
      requires fMulti.InCall(me, toFill, maxToRead) && fBytesToRead > 0 && fBufferSize > 0
      modifies this, toFill
      ensures fMulti.Wired() && fMulti.InCall(me, toFill, maxToRead) && callStart == old(callStart)
      ensures Flowed(old(ViewsOf(fMulti.handles)), ViewsOf(fMulti.handles), CachesOf(fMulti.handles), [], me)
      ensures |fBuffer| < old(|fBuffer|) && fBytesRead > 0
      ensures bStreamFromCache == old(bStreamFromCache) && mErrorCode == old(mErrorCode)
      ensures fMulti.gone == old(fMulti.gone)
    {
      var bufCnt := fBufferSize;
      bufCnt := if bufCnt > fBytesToRead then fBytesToRead else bufCnt;
      fMulti.OthersApart(me);
      TakeBuffered(bufCnt, toFill);
      assert fMulti.Resting(me);
      fMulti.OwnStep(me);
    }

    /** The messages after one curl_multi_perform. */
    method Heed(fMulti: Multi, me: nat, ghost toFill: array<byte>, ghost maxToRead: nat, burst: Burst)
      returns (tryAgain: bool, thrown: Option<ErrorCode>)
      requires fMulti.Wired() && me < |fMulti.handles| && fMulti.handles[me] == this
      requires fMulti.InCall(me, toFill, maxToRead)
      modifies this`bStreamFromCache, this`mErrorCode, cacheObject`headers
      ensures fMulti.Wired() && fMulti.InCall(me, toFill, maxToRead)
      ensures fMulti.script == old(fMulti.script) && fMulti.running == old(fMulti.running)
        && callStart == old(callStart)
      ensures Record() == old(Record())
      ensures forall t | t in fMulti.handles ::
        t.cacheObject.View() == old(t.cacheObject.View())
          && TagsOf(t.cacheObject.headers) == old(TagsOf(t.cacheObject.headers))
      ensures thrown == FirstError(burst.messages, CodeOf(burst, me)) && (thrown.None? ==> tryAgain == AsksAgain(burst))
      ensures bStreamFromCache == (old(bStreamFromCache) || Says304(burst.messages, CodeOf(burst, me)))
      ensures mErrorCode == if thrown.Some? then thrown.value else old(mErrorCode)
      ensures fMulti.gone == old(fMulti.gone)
    {
      fMulti.OthersApart(me);
      tryAgain, thrown := ProcessMessages(burst.messages, CodeOf(burst, me), burst.callAgain);
      assert fMulti.InCall(me, toFill, maxToRead) && Record() == old(Record());
      forall t | t in fMulti.handles
        ensures t.cacheObject.Valid() && t.Conserved()
      {
      }
    }

    /** The same, seen from all the streams. */
    method MessageStep(fMulti: Multi, me: nat, ghost toFill: array<byte>, ghost maxToRead: nat, burst: Burst)
      returns (tryAgain: bool, thrown: Option<ErrorCode>)
      requires fMulti.Wired() && me < |fMulti.handles| && fMulti.handles[me] == this
      requires fMulti.InCall(me, toFill, maxToRead)
      modifies this`bStreamFromCache, this`mErrorCode, cacheObject`headers
      ensures fMulti.Wired() && fMulti.InCall(me, toFill, maxToRead)
      ensures fMulti.script == old(fMulti.script) && fMulti.running == old(fMulti.running)
        && callStart == old(callStart)
      ensures Flowed(old(ViewsOf(fMulti.handles)), ViewsOf(fMulti.handles), CachesOf(fMulti.handles), [], me)
      ensures thrown == FirstError(burst.messages, CodeOf(burst, me)) && (thrown.None? ==> tryAgain == AsksAgain(burst))
      ensures bStreamFromCache == (old(bStreamFromCache) || Says304(burst.messages, CodeOf(burst, me)))
      ensures mErrorCode == if thrown.Some? then thrown.value else old(mErrorCode)
      ensures fMulti.gone == old(fMulti.gone)
    {
      tryAgain, thrown := Heed(fMulti, me, toFill, maxToRead, burst);
      fMulti.OwnStep(me);
    }

    /** One curl_multi_perform and the messages after it. */
    method CurlStep(fMulti: Multi, me: nat, toFill: array<byte>, ghost maxToRead: nat)
      returns (burst: Burst, tryAgain: bool, thrown: Option<ErrorCode>)
      requires fMulti.Wired() && fMulti.Scripted() && me < |fMulti.handles| && fMulti.handles[me] == this
      requires fMulti.InCall(me, toFill, maxToRead) && fBuffer == []
      modifies fMulti`script, fMulti`running, fMulti.Streams(), fMulti.Caches(), toFill
      ensures fMulti.Wired() && fMulti.Scripted() && fMulti.InCall(me, toFill, maxToRead) && callStart == old(callStart)
      ensures fBytesToRead > 0 ==> fBuffer == []
      ensures burst == (if old(fMulti.script) == [] then NO_BURST else old(fMulti.script)[0])
      ensures fMulti.script == (if old(fMulti.script) == [] then [] else old(fMulti.script)[1..])
      ensures fMulti.running == burst.running && LinesOk(burst.deliveries)
      ensures Flowed(old(ViewsOf(fMulti.handles)), ViewsOf(fMulti.handles), CachesOf(fMulti.handles),
        burst.deliveries, me)
      ensures thrown == FirstError(burst.messages, CodeOf(burst, me)) && (thrown.None? ==> tryAgain == AsksAgain(burst))
      ensures bStreamFromCache == (old(bStreamFromCache) || Says304(burst.messages, CodeOf(burst, me)))
      ensures mErrorCode == if thrown.Some? then thrown.value else old(mErrorCode)
      ensures fMulti.gone == old(fMulti.gone)
    {
      ghost var a, caches := ViewsOf(fMulti.handles), CachesOf(fMulti.handles);
      burst := fMulti.Perform(me, toFill, maxToRead);
      ghost var b := ViewsOf(fMulti.handles);
      tryAgain, thrown := MessageStep(fMulti, me, toFill, maxToRead, burst);
      MovedFlows(a, b, ViewsOf(fMulti.handles), caches, burst.deliveries, me);
    }

    /**
     What holds all through the loop of readBytes, relative to where the call began: the script,
     the streams, and what had been delivered by then.
     */
    ghost predicate Pumping(fMulti: Multi, me: nat, toFill: array<byte>, max: nat, start: Start)
      requires fMulti.Wired() && me < |fMulti.handles| && fMulti.handles[me] == this
      reads fMulti`script, fMulti`gone, fMulti.Streams(), fMulti.Caches(), toFill
    {
      && fMulti.Scripted() && fMulti.InCall(me, toFill, max) && callStart == |start.delivered|
      && Progress(start.script, fMulti.script, start.views, ViewsOf(fMulti.handles), CachesOf(fMulti.handles), me)
      && bStreamFromCache == (start.fromCache || Seen304(Used(start.script, fMulti.script), me))
      && (start.fromCache ==> fMulti.script == start.script && delivered == start.delivered)
    }

    method Open(toFill: array<byte>, maxToRead: nat)
      requires maxToRead <= toFill.Length
      modifies this`fBytesRead, this`fBytesToRead, this`fTarget, this`fWritePtr, this`callStart
      ensures Filled(toFill) && fBytesRead == 0 && fBytesToRead == maxToRead && callStart == |delivered|
      ensures old(Conserved()) ==> Conserved()
    {
      fBytesRead, fBytesToRead := 0, maxToRead;
      fTarget, fWritePtr := toFill, 0;
      callStart := |delivered|;
    }

    method OpenIn(fMulti: Multi, ghost me: nat, toFill: array<byte>, maxToRead: nat)
      requires fMulti.Wired() && fMulti.Scripted() && me < |fMulti.handles| && fMulti.handles[me] == this
      requires fMulti.Resting(me) && maxToRead <= toFill.Length
      modifies this`fBytesRead, this`fBytesToRead, this`fTarget, this`fWritePtr, this`callStart
      ensures fMulti.Wired() && fMulti.Scripted() && fMulti.InCall(me, toFill, maxToRead)
      ensures callStart == |delivered| && delivered == old(delivered) && bStreamFromCache == old(bStreamFromCache)
      ensures Flowed(old(ViewsOf(fMulti.handles)), ViewsOf(fMulti.handles), CachesOf(fMulti.handles), [], me)
      ensures fMulti.gone == old(fMulti.gone)
    {
      fMulti.OthersApart(me);
      Open(toFill, maxToRead);
      assert fMulti.InCall(me, toFill, maxToRead) && Record() == old(Record());
      forall t | t in fMulti.handles
        ensures t.Conserved() && t.cacheObject.Valid()
      {
      }
      fMulti.OwnStep(me);
    }

    method Enter(fMulti: Multi, ghost me: nat, toFill: array<byte>, maxToRead: nat) returns (ghost start: Start)
      requires fMulti.Wired() && fMulti.Scripted() && me < |fMulti.handles| && fMulti.handles[me] == this
      requires fMulti.Resting(me) && maxToRead <= toFill.Length
      modifies this`fBytesRead, this`fBytesToRead, this`fTarget, this`fWritePtr, this`callStart
      ensures start == Start(fMulti.script, old(ViewsOf(fMulti.handles)), delivered, bStreamFromCache, me)
      ensures fMulti.Wired() && Pumping(fMulti, me, toFill, maxToRead, start)
      ensures fMulti.gone == old(fMulti.gone)
    {
      start := Start(fMulti.script, ViewsOf(fMulti.handles), delivered, bStreamFromCache, me);
      OpenIn(fMulti, me, toFill, maxToRead);
      ProgressStart(fMulti.script, start.views, ViewsOf(fMulti.handles), CachesOf(fMulti.handles), me);
    }

    method BufferTurn(fMulti: Multi, ghost me: nat, toFill: array<byte>, ghost maxToRead: nat, ghost start: Start)
      requires fMulti.Wired() && me < |fMulti.handles| && fMulti.handles[me] == this
      requires Pumping(fMulti, me, toFill, maxToRead, start)
      requires fBytesToRead > 0 && fBufferSize > 0 && !bStreamFromCache
      modifies this, toFill
      ensures fMulti.Wired() && Pumping(fMulti, me, toFill, maxToRead, start)
      ensures |fBuffer| < old(|fBuffer|) && fBytesRead > 0
      ensures bStreamFromCache == old(bStreamFromCache) && mErrorCode == old(mErrorCode)
      ensures fMulti.gone == old(fMulti.gone)
    {
      ghost var b := ViewsOf(fMulti.handles);
      BufferStep(fMulti, me, toFill, maxToRead);
      ProgressBuffer(start.script, fMulti.script, start.views, b, ViewsOf(fMulti.handles), CachesOf(fMulti.handles),
        me);
    }

    method CurlTurn(fMulti: Multi, me: nat, toFill: array<byte>, ghost maxToRead: nat, ghost start: Start)
      returns (tryAgain: bool, bailOut: bool, thrown: Option<ErrorCode>)
      requires fMulti.Wired() && me < |fMulti.handles| && fMulti.handles[me] == this
      requires Pumping(fMulti, me, toFill, maxToRead, start) && fBuffer == [] && !bStreamFromCache
      requires ErrorOf(Used(start.script, fMulti.script), me) == None
      modifies fMulti`script, fMulti`running, fMulti.Streams(), fMulti.Caches(), toFill
      ensures fMulti.Wired() && Pumping(fMulti, me, toFill, maxToRead, start)
      ensures fBytesToRead > 0 ==> fBuffer == []
      ensures thrown == ErrorOf(Used(start.script, fMulti.script), me)
      ensures mErrorCode == if thrown.Some? then thrown.value else old(mErrorCode)
      ensures bailOut ==> RanDown(Used(start.script, fMulti.script), fMulti.script)
      ensures |fMulti.script| == old(|fMulti.script|) - 1 || (fMulti.script == old(fMulti.script) == [] && bailOut)
      ensures thrown.None? && !bailOut ==> Told(Used(start.script, fMulti.script), tryAgain)
      ensures fMulti.gone == old(fMulti.gone)
    {
      ghost var b, rest := ViewsOf(fMulti.handles), fMulti.script;
      var burst;
      burst, tryAgain, thrown := CurlStep(fMulti, me, toFill, maxToRead);
      bailOut := burst.running == 0;
      ProgressBurst(start.script, rest, burst, start.views, b, ViewsOf(fMulti.handles), CachesOf(fMulti.handles), me);
    }

    /** One turn of the loop of readBytes: buffered data if there is any, else curl. */
    method Turn(fMulti: Multi, me: nat, toFill: array<byte>, ghost maxToRead: nat, ghost start: Start)
      returns (tryAgain: bool, bailOut: bool, thrown: Option<ErrorCode>)
      requires fMulti.Wired() && me < |fMulti.handles| && fMulti.handles[me] == this
      requires Pumping(fMulti, me, toFill, maxToRead, start) && !bStreamFromCache && fBytesToRead > 0
      requires ErrorOf(Used(start.script, fMulti.script), me) == None
      requires Used(start.script, fMulti.script) != [] ==> fBuffer == []
      modifies fMulti`script, fMulti`running, fMulti.Streams(), fMulti.Caches(), toFill
      ensures fMulti.Wired() && Pumping(fMulti, me, toFill, maxToRead, start)
      ensures thrown == ErrorOf(Used(start.script, fMulti.script), me)
      ensures mErrorCode == if thrown.Some? then thrown.value else old(mErrorCode)
      ensures bailOut && fBytesToRead > 0 ==> fBuffer == []
      ensures bailOut ==> RanDown(Used(start.script, fMulti.script), fMulti.script)
      ensures (|fMulti.script| == old(|fMulti.script|) - 1 && old(fBuffer) == [])
           || (fMulti.script == old(fMulti.script) && (bailOut || |fBuffer| < old(|fBuffer|)))
      ensures Used(start.script, fMulti.script) != [] && fBytesToRead > 0 ==> fBuffer == []
      ensures thrown.None? && !bailOut ==> Told(Used(start.script, fMulti.script), tryAgain)
      ensures fMulti.gone == old(fMulti.gone)
    {
      if fBufferSize > 0 {
        BufferTurn(fMulti, me, toFill, maxToRead, start);
        tryAgain, bailOut, thrown := true, false, None;
      } else {
        tryAgain, bailOut, thrown := CurlTurn(fMulti, me, toFill, maxToRead, start);
      }
    }

    /** Buffered and handed-over bytes of this call together are those held before and those that have come. */
    lemma {:induction false} GotSoFar(fMulti: Multi, me: nat, toFill: array<byte>, max: nat, start: Start)
      requires fMulti.Wired() && me < |fMulti.handles| && fMulti.handles[me] == this
      requires Pumping(fMulti, me, toFill, max, start) && start.me == me
      requires me < |start.views| && start.delivered == start.views[me].delivered
      ensures var a := start.views[me];
        fBytesRead + |fBuffer|
        == HeldBy(a) + |BodyTo(me, Deliveries(Used(start.script, fMulti.script)))|
    {
      assert Drawn(start.views[me], ViewsOf(fMulti.handles)[me], me, Deliveries(Used(start.script, fMulti.script)));
    }

    /** Why the loop of readBytes goes on, or not. */
    ghost predicate Minding(fMulti: Multi, max: nat, start: Start, tryAgain: bool, bailOut: bool,
        thrown: Option<ErrorCode>)
      reads this`fBytesToRead, this`fBuffer, fMulti`script
    {
      var used := Used(start.script, fMulti.script);
      && start.me < |start.views| && |fMulti.script| <= |start.script|
      && Unsatisfied(start.script, |used|, start.me, HeldBy(start.views[start.me]), max)
      && (used != [] && fBytesToRead > 0 ==> fBuffer == [])
      && (bailOut && fBytesToRead > 0 ==> fBuffer == []) && (bailOut ==> RanDown(used, fMulti.script))
      && thrown == ErrorOf(used, start.me) && (thrown.None? && !bailOut ==> Told(used, tryAgain))
    }

    /** One turn of the loop, and why it was taken. */
    method MindedTurn(fMulti: Multi, me: nat, toFill: array<byte>, ghost maxToRead: nat, ghost start: Start,
        ghost tryAgain0: bool)
      returns (tryAgain: bool, bailOut: bool, thrown: Option<ErrorCode>)
      requires fMulti.Wired() && me < |fMulti.handles| && fMulti.handles[me] == this
      requires Pumping(fMulti, me, toFill, maxToRead, start) && !bStreamFromCache && fBytesToRead > 0
      requires Minding(fMulti, maxToRead, start, tryAgain0, false, None) && (tryAgain0 || fBytesRead == 0)
      requires start.me == me && start.delivered == start.views[me].delivered
      modifies fMulti`script, fMulti`running, fMulti.Streams(), fMulti.Caches(), toFill
      ensures fMulti.Wired() && Pumping(fMulti, me, toFill, maxToRead, start)
      ensures Minding(fMulti, maxToRead, start, tryAgain, bailOut, thrown)
      ensures mErrorCode == if thrown.Some? then thrown.value else old(mErrorCode)
      ensures |fMulti.script| < old(|fMulti.script|)
           || (fMulti.script == old(fMulti.script) && (bailOut || |fBuffer| < old(|fBuffer|)))
      ensures fMulti.gone == old(fMulti.gone)
    {
      GotSoFar(fMulti, me, toFill, maxToRead, start);
      ghost var rest, held := fMulti.script, HeldBy(start.views[me]);
      assert fBuffer == [] ==> !Satisfied(Used(start.script, rest), me, held, maxToRead);
      tryAgain, bailOut, thrown := Turn(fMulti, me, toFill, maxToRead, start);
      UsedOn(start.script, rest, fMulti.script, me, held, maxToRead);
    }

    /** Why the loop has stopped. */
    lemma {:induction false} PumpStops(fMulti: Multi, me: nat, toFill: array<byte>, max: nat, start: Start,
        tryAgain: bool, bailOut: bool, thrown: Option<ErrorCode>)
      requires fMulti.Wired() && me < |fMulti.handles| && fMulti.handles[me] == this
      requires Pumping(fMulti, me, toFill, max, start) && Minding(fMulti, max, start, tryAgain, bailOut, thrown)
      requires start.me == me && start.delivered == start.views[me].delivered
        && start.fromCache == start.views[me].fromCache
      requires fBytesToRead == 0 || (!tryAgain && fBytesRead > 0) || bStreamFromCache || bailOut || thrown.Some?
      ensures StopsRight(start, fMulti.script, View(), max)
      ensures thrown.None? && 0 == fBytesRead < max && !bStreamFromCache ==>
        fBuffer == [] && RanDown(Used(start.script, fMulti.script), fMulti.script)
    {
      GotSoFar(fMulti, me, toFill, max, start);
      var used := Used(start.script, fMulti.script);
      assert used == start.script[..|used|];
      assert !start.fromCache && |used| < |start.script| ==> Satisfied(used, me, HeldBy(start.views[me]), max);
    }

    /** The loop of readBytes: it goes on until there is something to return. */
    method Loop(fMulti: Multi, me: nat, toFill: array<byte>, ghost maxToRead: nat, ghost start: Start)
      returns (tryAgain: bool, bailOut: bool, thrown: Option<ErrorCode>)
      requires fMulti.Wired() && me < |fMulti.handles| && fMulti.handles[me] == this
      requires Pumping(fMulti, me, toFill, maxToRead, start) && start.script == fMulti.script
      requires start.me == me < |start.views| && start.delivered == start.views[me].delivered
      modifies fMulti`script, fMulti`running, fMulti.Streams(), fMulti.Caches(), toFill
      ensures fMulti.Wired() && Pumping(fMulti, me, toFill, maxToRead, start) && fMulti.gone == old(fMulti.gone)
      ensures Minding(fMulti, maxToRead, start, tryAgain, bailOut, thrown)
      ensures mErrorCode == if thrown.Some? then thrown.value else old(mErrorCode)
      ensures fBytesToRead == 0 || (!tryAgain && fBytesRead > 0) || bStreamFromCache || bailOut || thrown.Some?
    {
      tryAgain, bailOut, thrown := true, false, None;
      while fBytesToRead > 0 && (tryAgain || fBytesRead == 0) && !bStreamFromCache && !bailOut && thrown == None
        invariant fMulti.Wired() && Pumping(fMulti, me, toFill, maxToRead, start)
        invariant fMulti.gone == old(fMulti.gone)
        invariant mErrorCode == if thrown.Some? then thrown.value else old(mErrorCode)
        invariant Minding(fMulti, maxToRead, start, tryAgain, bailOut, thrown)
        decreases |fMulti.script|, !bailOut, |fBuffer|
      {
        tryAgain, bailOut, thrown := MindedTurn(fMulti, me, toFill, maxToRead, start, tryAgain);
      }
    }

    /** readBytes up to the end of its loop. */
    method Pump(fMulti: Multi, me: nat, toFill: array<byte>, maxToRead: nat)
      returns (thrown: Option<ErrorCode>, ghost start: Start)
      requires fMulti.Wired() && fMulti.Scripted() && me < |fMulti.handles| && fMulti.handles[me] == this
      requires fMulti.Resting(me)
      requires maxToRead <= toFill.Length
      modifies fMulti`script, fMulti`running, fMulti.Streams(), fMulti.Caches(), toFill
      ensures fMulti.Wired() && Pumping(fMulti, me, toFill, maxToRead, start)
      ensures start == Start(old(fMulti.script), old(ViewsOf(fMulti.handles)), old(delivered), old(bStreamFromCache),
        me)
      ensures thrown == ErrorOf(Used(start.script, fMulti.script), me)
      ensures mErrorCode == if thrown.Some? then thrown.value else old(mErrorCode)
      ensures thrown.None? && 0 == fBytesRead < maxToRead && !bStreamFromCache ==>
        fBuffer == [] && RanDown(Used(start.script, fMulti.script), fMulti.script)
      ensures StopsRight(start, fMulti.script, View(), maxToRead)
      ensures fMulti.gone == old(fMulti.gone)
    {
      start := Enter(fMulti, me, toFill, maxToRead);
      var tryAgain, bailOut;
      tryAgain, bailOut, thrown := Loop(fMulti, me, toFill, maxToRead, start);
      PumpStops(fMulti, me, toFill, maxToRead, start, tryAgain, bailOut, thrown);
    }

    /** A read from the cache object, which is rewound when there was nothing more. */
    method PullFromCache(toFill: array<byte>) returns (n: nat)
      requires cacheObject.Valid() && cacheObject.View().Readable() && fWritePtr + fBytesToRead <= toFill.Length
      modifies cacheObject, toFill
      ensures cacheObject.Valid() && cacheObject.headers == old(cacheObject.headers)
      ensures var out := ReadOut(old(cacheObject.View()), fBytesToRead);
        n == |out| && toFill[fWritePtr..fWritePtr + n] == out && toFill[..fWritePtr] == old(toFill[..fWritePtr])
      ensures cacheObject.View() == AfterServe(old(cacheObject.View()), fBytesToRead)
    {
      n := cacheObject.ReadBytes(toFill, fWritePtr, fBytesToRead);
      if n == 0 {
        cacheObject.ResetState();
      }
    }

    /** After a 304 the rest of the request is met from the cache object. */
    method ReadFromCache(toFill: array<byte>)
      requires Conserved() && Filled(toFill) && cacheObject.Valid() && cacheObject.View().Readable()
      modifies this`fBytesRead, this`fTotalBytesRead, this`served, cacheObject, toFill
      ensures Conserved() && cacheObject.Valid()
      ensures var out := ReadOut(old(cacheObject.View()), fBytesToRead);
        && fBytesRead == |out| && served == old(served) + out
        && toFill[fWritePtr..fWritePtr + |out|] == out
        && toFill[..fWritePtr] == old(toFill[..fWritePtr])
      ensures cacheObject.View() == AfterServe(old(cacheObject.View()), fBytesToRead)
      ensures old(Coherent()) ==> Coherent()
    {
      ghost var out := ReadOut(cacheObject.View(), fBytesToRead);
      fBytesRead := PullFromCache(toFill);
      fTotalBytesRead := fTotalBytesRead + fBytesRead;
      served := served + out;
    }

    /** After a 304 the rest of the request comes from the cache. */
    method ServeOrNot(toFill: array<byte>)
      requires Conserved() && Filled(toFill) && cacheObject.Valid()
      requires bUseCache && bStreamFromCache ==> cacheObject.View().Readable()
      modifies this`fBytesRead, this`fTotalBytesRead, this`served, cacheObject, toFill
      ensures Conserved() && cacheObject.Valid()
      ensures Answered(old(View()), View(), old(toFill[..]), toFill[..], old(fBytesRead), fBytesToRead)
      ensures fBytesRead == Counted(old(View()), old(fBytesRead), fBytesToRead)
    {
      ghost var before := toFill[..];
      if bUseCache && bStreamFromCache {
        ReadFromCache(toFill);
        assert toFill[..][..fWritePtr] == toFill[..fWritePtr] == before[..fWritePtr];
      }
    }

    /** The flags at the end of readBytes. */
    method Settle()
      modifies this`fBytesToRead, this`bTransferFinished
      ensures old(Conserved()) ==> Conserved()
      ensures fBytesToRead == 0
      ensures View() == old(View()).(finished := old(bTransferFinished) || hContent_length_response == fTotalBytesRead)
    {
      fBytesToRead := 0;
      if hContent_length_response == fTotalBytesRead {
        bTransferFinished := true;
      }
    }

    /** From the cache onward: what readBytes does once its loop is done. */
    method Conclude(toFill: array<byte>) returns (r: Outcome)
      requires Conserved() && Filled(toFill) && cacheObject.Valid()
      requires bUseCache && bStreamFromCache ==> cacheObject.View().Readable()
      modifies this`fBytesRead, this`fTotalBytesRead, this`served, this`fBytesToRead, this`bTransferFinished,
        cacheObject, toFill
      ensures Conserved() && cacheObject.Valid() && fBytesToRead == 0
      ensures Concluded(old(View()), View(), r, old(toFill[..]), toFill[..], old(fBytesRead), old(fBytesToRead))
    {
      ServeOrNot(toFill);
      Settle();
      r := if mErrorCode != NONE then Failed else Count(fBytesRead);
    }

    /** A stream that gets a 304 itself reads a cache object that nobody writes meanwhile. */
    ghost predicate ServeSafe(fMulti: Multi, me: nat)
      reads this`bUseCache, this`bStreamFromCache, fMulti`script
      reads cacheObject`eState, cacheObject`content, cacheObject`pos, cacheObject`sound
    {
      bUseCache && (bStreamFromCache || Seen304(fMulti.script, me)) ==>
        cacheObject.View().Readable() && Quiet(CachesOf(fMulti.handles), cacheObject, Deliveries(fMulti.script))
    }

    lemma {:induction false} SafeToServe(fMulti: Multi, me: nat, toFill: array<byte>, max: nat, start: Start)
      requires fMulti.Wired() && me < |fMulti.handles| && fMulti.handles[me] == this
      requires Pumping(fMulti, me, toFill, max, start) && start.fromCache == start.views[me].fromCache
      requires var a := start.views[me];
        a.use && (a.fromCache || Seen304(start.script, me)) ==>
          a.view.Readable() && Quiet(CachesOf(fMulti.handles), cacheObject, Deliveries(start.script))
      ensures bUseCache && bStreamFromCache ==>
        cacheObject.View() == start.views[me].view && cacheObject.View().Readable()
    {
      DeliveriesPrefix(start.script, |start.script| - |fMulti.script|);
    }

    /** The second half of readBytes, seen from all the streams. */
    method Finish(fMulti: Multi, ghost me: nat, toFill: array<byte>) returns (r: Outcome)
      requires fMulti.Wired() && me < |fMulti.handles| && fMulti.handles[me] == this
      requires Filled(toFill) && (bUseCache && bStreamFromCache ==> cacheObject.View().Readable())
      requires fMulti.Resting(me)
      modifies this`fBytesRead, this`fTotalBytesRead, this`served, this`fBytesToRead, this`bTransferFinished,
        cacheObject, toFill
      ensures fMulti.Wired() && fMulti.Resting(me) && fBytesToRead == 0
      ensures Served(old(ViewsOf(fMulti.handles)), ViewsOf(fMulti.handles), CachesOf(fMulti.handles), me)
      ensures Concluded(old(View()), View(), r, old(toFill[..]), toFill[..], old(fBytesRead), old(fBytesToRead))
      ensures fMulti.gone == old(fMulti.gone)
    {
      fMulti.OthersApart(me);
      r := Conclude(toFill);
      fMulti.WiredStays(this);
      fMulti.ServeStep(me);
    }

    /** The second half of readBytes, as the caller sees it. */
    method Close(fMulti: Multi, ghost me: nat, toFill: array<byte>, ghost maxToRead: nat,
        ghost start: Start) returns (r: Outcome)
      requires fMulti.Wired() && me < |fMulti.handles| && fMulti.handles[me] == this
      requires Filled(toFill) && fBytesRead + fBytesToRead == maxToRead && start.me == me
      requires fMulti.Resting(me)
      requires Progress(start.script, fMulti.script, start.views, ViewsOf(fMulti.handles), CachesOf(fMulti.handles), me)
      requires bUseCache && bStreamFromCache ==>
        cacheObject.View() == start.views[me].view && cacheObject.View().Readable()
      requires Pumped(start, fMulti.script, start.views[me], View(), toFill[..], fBytesRead, maxToRead)
      requires ErrorOf(Used(start.script, fMulti.script), me) == None && mErrorCode == start.views[me].error
      modifies this`fBytesRead, this`fTotalBytesRead, this`served, this`fBytesToRead, this`bTransferFinished,
        cacheObject, toFill
      ensures fMulti.Wired() && fMulti.Resting(me) && fBytesToRead == 0 && delivered == old(delivered)
      ensures Consumed(start, fMulti.script, ViewsOf(fMulti.handles), CachesOf(fMulti.handles), me)
      ensures Returned(start, fMulti.script, start.views[me], View(), r, toFill[..], maxToRead)
      ensures r == Count(0) && !bStreamFromCache ==> old(fBytesRead) == 0
      ensures fBuffer == old(fBuffer) && fMulti.script == old(fMulti.script)
        && (old(fMulti.Scripted()) ==> fMulti.Scripted())
      ensures fMulti.gone == old(fMulti.gone)
    {
      ghost var b, caches := ViewsOf(fMulti.handles), CachesOf(fMulti.handles);
      ghost var v, buffer, n, want := View(), toFill[..], fBytesRead, fBytesToRead;
      r := Finish(fMulti, me, toFill);
      FlowedConsumes(start, fMulti.script, b, ViewsOf(fMulti.handles), caches, me);
      ConcludedReturns(start, fMulti.script, start.views[me], v, View(), r, buffer, toFill[..], n, want, maxToRead);
    }

    /**
     readBytes. What it returns, and what has become of every stream on the multi handle, in terms
     of the part of the script it used.
     */
    method ReadBytes(fMulti: Multi, me: nat, toFill: array<byte>, maxToRead: nat)
      returns (r: Outcome, ghost start: Start)
      requires fMulti.Wired() && fMulti.Scripted() && me < |fMulti.handles| && fMulti.handles[me] == this
      requires fMulti.Resting(me)
      requires maxToRead <= toFill.Length && ServeSafe(fMulti, me)
      modifies fMulti`script, fMulti`running, fMulti.Streams(), fMulti.Caches(), toFill
      ensures fMulti.Wired() && fMulti.Scripted()
      ensures fMulti.Resting(me) && (!r.Thrown? ==> fBytesToRead == 0)
      // a read that throws before it is full leaves its request open
      ensures r.Thrown? ==> fBytesToRead == maxToRead - (|delivered| - |old(delivered)|)
      ensures start == Start(old(fMulti.script), old(ViewsOf(fMulti.handles)), old(delivered), old(bStreamFromCache),
        me)
      ensures Consumed(start, fMulti.script, ViewsOf(fMulti.handles), CachesOf(fMulti.handles), me)
      ensures Returned(start, fMulti.script, start.views[me], View(), r, toFill[..], maxToRead)
      // it uses the shortest part of the script that brings it to its end
      ensures StopsRight(start, fMulti.script, View(), maxToRead)
      ensures r == Count(0) && 0 < maxToRead && !bStreamFromCache ==>
        fBuffer == [] && RanDown(Used(start.script, fMulti.script), fMulti.script)
      ensures fMulti.gone == old(fMulti.gone)
    {
      var thrown;
      thrown, start := Pump(fMulti, me, toFill, maxToRead);
      ghost var b, caches := ViewsOf(fMulti.handles), CachesOf(fMulti.handles);
      ghost var buffer, n := toFill[..], fBytesRead;
      SafeToServe(fMulti, me, toFill, maxToRead, start);
      assert buffer[..n] == toFill[..n];
      PumpedSo(start, fMulti.script, b, caches, me, buffer, n, maxToRead);
      if thrown.Some? {
        FlowedConsumes(start, fMulti.script, b, b, caches, me);
        r := Thrown(thrown.value);
        ThrownReturns(start, fMulti.script, start.views[me], b[me], thrown.value, buffer, n, maxToRead);
      } else {
        r := Close(fMulti, me, toFill, maxToRead, start);
        StopsStill(start, fMulti.script, b[me], View(), maxToRead);
      }
    }
  }

  // ---- Several streams on one multi handle ------------------------------------------------

  ghost function ViewsOf(hs: seq<HttpStream>): (r: seq<Snap>)
    reads set s | s in hs, set s | s in hs :: s.cacheObject
    ensures |r| == |hs| && forall i | 0 <= i < |hs| :: r[i] == hs[i].View()
  {
    if hs == [] then [] else ViewsOf(hs[..|hs| - 1]) + [hs[|hs| - 1].View()]
  }

  function CachesOf(hs: seq<HttpStream>): (r: seq<CacheObject>)
    ensures |r| == |hs| && forall i | 0 <= i < |hs| :: r[i] == hs[i].cacheObject
  {
    if hs == [] then [] else CachesOf(hs[..|hs| - 1]) + [hs[|hs| - 1].cacheObject]
  }

  /** Callbacks without those on handles that have been removed. */
  function Clean(ds: seq<Delivery>, gone: set<nat>): seq<Delivery> {
    if ds == [] then [] else
      var n := |ds| - 1;
      if ds[n].to in gone then Clean(ds[..n], gone) else Clean(ds[..n], gone) + [ds[n]]
  }

  function CleanAll(bursts: seq<Burst>, gone: set<nat>): seq<Burst> {
    seq(|bursts|, k requires 0 <= k < |bursts| => bursts[k].(deliveries := Clean(bursts[k].deliveries, gone)))
  }

  lemma {:induction false} CleanMembers(ds: seq<Delivery>, gone: set<nat>, d: Delivery)
    ensures d in Clean(ds, gone) <==> d in ds && d.to !in gone
  {
    if ds != [] {
      var n := |ds| - 1;
      CleanMembers(ds[..n], gone, d);
      assert ds == ds[..n] + [ds[n]];
    }
  }

  /** A callback while stream `me` wants `max` bytes in toFill. */
  datatype Call = Call(d: Delivery, me: nat, toFill: array<byte>, max: nat)

  class Multi {
    /** The easy handles that have been added. */
    const handles: seq<HttpStream>
    var script: seq<Burst>
    /** Transfers still running after the latest perform. */
    var running: nat
    /** The handles that have been removed again. */
    var gone: set<nat>

    constructor (handles: seq<HttpStream>, script: seq<Burst>)
      ensures this.handles == handles && this.script == script && gone == {}
    {
      this.handles, this.script, running, gone := handles, script, 0, {};
    }

    ghost function Streams(): set<HttpStream>
    {
      set s | s in handles
    }

    ghost function Caches(): set<CacheObject>
    {
      set s | s in handles :: s.cacheObject
    }

    predicate Apart(i: nat, j: nat) {
      i < |handles| && j < |handles| && i != j ==> handles[i] != handles[j]
    }

    lemma {:induction false} OthersApart(me: nat)
      requires Wired() && me < |handles|
      ensures forall i | 0 <= i < |handles| && i != me :: handles[i] != handles[me]
    {
      forall i | 0 <= i < |handles| && i != me
        ensures handles[i] != handles[me]
      {
        assert Apart(i, me);
      }
    }

    ghost predicate Wired()
      reads Streams(), Caches()
    {
      && (forall i: nat, j: nat :: Apart(i, j))
      && (forall s | s in handles :: s.Conserved() && s.cacheObject.Valid())
    }

    /**
     Only stream `me` is inside readBytes, on a request for `max` bytes into toFill, and as long as
     it wants data its overflow buffer is empty.
     */
    ghost predicate Attended(me: nat, toFill: array<byte>, max: nat)
      requires me < |handles|
      reads this`gone, Streams(), toFill
    {
      InCall(me, toFill, max) && (handles[me].fBytesToRead > 0 ==> handles[me].fBuffer == [])
    }

    /** No other stream that is still there is inside readBytes. */
    ghost predicate Resting(me: nat)
      reads this`gone, Streams()
    {
      forall i | 0 <= i < |handles| && i != me && i !in gone :: handles[i].fBytesToRead == 0
    }

    /** Stream `me`, and no other, is inside readBytes. */
    ghost predicate InCall(me: nat, toFill: array<byte>, max: nat)
      requires me < |handles|
      reads this`gone, Streams(), toFill
    {
      handles[me].Filled(toFill) && handles[me].fBytesRead + handles[me].fBytesToRead == max && Resting(me)
    }

    /** A callback on s leaves the other streams and the other cache objects alone. */
    twostate predicate OnlyTouched(s: HttpStream)
      reads Streams(), Caches()
    {
      && s in handles
      && (forall t | t in handles && t != s :: unchanged(t))
      && (forall t | t in handles && t.cacheObject != s.cacheObject :: unchanged(t.cacheObject))
    }

    twostate lemma {:induction false} WiredStays(s: HttpStream)
      requires OnlyTouched(s) && old(Wired()) && s.Conserved() && s.cacheObject.Valid()
      ensures Wired()
    {
      forall t | t in handles
        ensures t.Conserved() && t.cacheObject.Valid()
      {
        assert old(t.Conserved() && t.cacheObject.Valid());
        if t != s {
          assert unchanged(t);
        }
        if t.cacheObject != s.cacheObject {
          assert unchanged(t.cacheObject);
        }
      }
    }

    /** What one callback does to the stream it is made on. */
    twostate predicate Called(d: Delivery, me: nat)
      requires d.to < |handles| && LinesOk([d])
      reads Streams(), Caches()
    {
      var s := handles[d.to];
      && OnlyTouched(s) && s.Conserved() && s.cacheObject.Valid()
      && Advanced(old(s.View()), s.View(), d.to, [d], d.to == me)
      && (old(s.Coherent()) ==> s.Coherent())
      && (d.event.Header? ==> s.cacheObject.View() == old(s.cacheObject.View()))
    }

    /** The stream stays in its call, or out of it. */
    twostate predicate StaysIn(s: HttpStream, target: array<byte>)
      reads s, target
    {
      && (old(s.Filled(target)) ==> s.Filled(target))
      && s.fBytesRead + s.fBytesToRead == old(s.fBytesRead + s.fBytesToRead)
      && (s.fBytesToRead > 0 ==> s.fBuffer == [])
      && (old(s.fBytesToRead) == 0 ==> s.fBytesToRead == 0 && unchanged(target))
    }

    twostate lemma {:induction false} AttendedStays(call: Call)
      requires call.d.to < |handles| && call.me < |handles| && gone == old(gone) && call.d.to !in gone
      requires OnlyTouched(handles[call.d.to]) && old(Attended(call.me, call.toFill, call.max))
      requires StaysIn(handles[call.d.to], call.toFill)
      requires call.d.to != call.me ==> handles[call.d.to] != handles[call.me]
      ensures Attended(call.me, call.toFill, call.max)
    {
      var s, m, toFill := handles[call.d.to], handles[call.me], call.toFill;
      assert m in handles;
      if s != m {
        assert unchanged(m);
        assert old(m.Filled(toFill));
      }
      forall i | 0 <= i < |handles| && i != call.me && i !in gone
        ensures handles[i].fBytesToRead == 0
      {
        assert handles[i] in handles;
        if handles[i] != s {
          assert unchanged(handles[i]);
        }
      }
    }

    method HeaderCalled(s: HttpStream, d: Delivery, ghost me: nat)
      requires d.to < |handles| && s == handles[d.to] && LinesOk([d]) && d.event.Header?
      requires s.Conserved() && s.cacheObject.Valid()
      modifies s`bStoreCache, s`hContent_length_response, s`tags, s.cacheObject`headers
      ensures Called(d, me)
    {
      assert s in handles;
      ghost var a, aside := s.View(), s.Aside();
      assert d in [d];
      s.HeaderCallback(d.event.line);
      assert s.Aside() == aside;
      AdvancedOnce(a, s.View(), d.to, d, d.to == me);
    }

    method HeaderCall(d: Delivery, ghost me: nat, ghost toFill: array<byte>)
      requires d.to < |handles| && LinesOk([d]) && d.event.Header?
      requires handles[d.to].Conserved() && handles[d.to].cacheObject.Valid()
      requires handles[d.to].fBytesToRead > 0 ==> handles[d.to].fBuffer == []
      modifies handles[d.to], handles[d.to].cacheObject
      ensures Called(d, me) && StaysIn(handles[d.to], toFill)
    {
      HeaderCalled(handles[d.to], d, me);
    }

    method BodyCall(d: Delivery, ghost me: nat, ghost toFill: array<byte>)
      requires d.to < |handles| && LinesOk([d]) && d.event.Body?
      requires handles[d.to].Conserved() && handles[d.to].cacheObject.Valid()
      requires handles[d.to].fBytesToRead > 0 ==>
        d.to == me && handles[d.to].Filled(toFill) && handles[d.to].fBuffer == []
      modifies handles[d.to], handles[d.to].cacheObject
      modifies if handles[d.to].fBytesToRead > 0 then {toFill} else {}
      ensures Called(d, me) && StaysIn(handles[d.to], toFill)
    {
      var s := handles[d.to];
      assert s in handles;
      ghost var a, aside := s.View(), s.Aside();
      var _ := s.WriteCallback(d.event.data, toFill);
      assert s.Aside() == aside;
      AdvancedOnce(a, s.View(), d.to, d, d.to == me);
    }

    twostate lemma {:induction false} AllSee(call: Call)
      requires call.d.to < |handles| && LinesOk([call.d]) && Called(call.d, call.me) && Wired()
      ensures Moved(old(ViewsOf(handles)), ViewsOf(handles), CachesOf(handles), [call.d], call.me)
    {
      var d, me := call.d, call.me;
      var s := handles[d.to];
      var a, b, caches := old(ViewsOf(handles)), ViewsOf(handles), CachesOf(handles);
      assert d in [d];
      forall i | 0 <= i < |handles|
        ensures Advanced(a[i], b[i], i, [d], i == me)
        ensures Unshared(caches, i) && a[i].coherent ==> b[i].coherent
        ensures Quiet(caches, caches[i], [d]) ==> b[i].view == a[i].view
      {
        var t := handles[i];
        OneEvent(i, old(t.State()), t.bUseCache, d);
        assert t in handles && Apart(i, d.to);
        if t != s {
          assert unchanged(t);
        }
        if t.cacheObject != s.cacheObject {
          assert unchanged(t.cacheObject);
        }
      }
    }

    /** A callback on one stream, seen from all of them. */
    method Deliver(d: Delivery, ghost me: nat, ghost toFill: array<byte>, ghost max: nat)
      requires Wired() && me < |handles| && Attended(me, toFill, max)
      requires d.to < |handles| && d.to !in gone && LinesOk([d])
      modifies Streams(), Caches(), toFill
      ensures Wired() && Attended(me, toFill, max)
      ensures Moved(old(ViewsOf(handles)), ViewsOf(handles), CachesOf(handles), [d], me)
      ensures gone == old(gone)
    {
      assert handles[d.to] in handles;
      if d.event.Header? {
        HeaderCall(d, me, toFill);
      } else {
        BodyCall(d, me, toFill);
      }
      WiredStays(handles[d.to]);
      assert Apart(d.to, me);
      AttendedStays(Call(d, me, toFill, max));
      AllSee(Call(d, me, toFill, max));
    }

    /** The callbacks of one burst. */
    method DeliverAll(ds: seq<Delivery>, ghost me: nat, ghost toFill: array<byte>, ghost max: nat)
      requires Wired() && me < |handles| && Attended(me, toFill, max)
      requires LinesOk(ds) && forall d | d in ds :: d.to < |handles| && d.to !in gone
      modifies Streams(), Caches(), toFill
      ensures Wired() && Attended(me, toFill, max) && script == old(script) && running == old(running)
      ensures Moved(old(ViewsOf(handles)), ViewsOf(handles), CachesOf(handles), ds, me)
      ensures gone == old(gone)
    {
      ghost var a, caches := ViewsOf(handles), CachesOf(handles);
      MovedNowhere(a, caches, me);
      for k := 0 to |ds|
        invariant Wired() && Attended(me, toFill, max)
        invariant Moved(a, ViewsOf(handles), caches, ds[..k], me)
      {
        ghost var b := ViewsOf(handles);
        assert ds[k] in ds;
        Deliver(ds[k], me, toFill, max);
        MovedOnce(a, b, ViewsOf(handles), caches, ds, k, me);
      }
      assert ds[..|ds|] == ds;
    }

    /** curl_multi_remove_handle: nothing comes for this handle any more. */
    method Remove(i: nat)
      requires Wired() && Scripted() && Resting(i)
      modifies this`script, this`gone
      ensures gone == old(gone) + {i} && script == CleanAll(old(script), {i})
      ensures Wired() && Scripted() && Resting(|handles|)
      ensures ViewsOf(handles) == old(ViewsOf(handles))
    {
      forall k, d | 0 <= k < |script|
        ensures d in Clean(script[k].deliveries, {i}) <==> d in script[k].deliveries && d.to != i
      {
        CleanMembers(script[k].deliveries, {i}, d);
      }
      gone := gone + {i};
      script := CleanAll(script, {i});
    }

    ghost predicate Scripted()
      reads this`script, this`gone
    {
      ScriptOk(script, |handles|, gone)
    }

    /** Advances the script. */
    method Next() returns (burst: Burst)
      requires Scripted()
      modifies this`script, this`running
      ensures Scripted() && ScriptOk([burst], |handles|, gone)
      ensures burst == (if old(script) == [] then NO_BURST else old(script)[0])
      ensures script == (if old(script) == [] then [] else old(script)[1..])
      ensures running == burst.running
      ensures ViewsOf(handles) == old(ViewsOf(handles))
      ensures gone == old(gone)
    {
      burst := NO_BURST;
      if script != [] {
        burst, script := script[0], script[1..];
      }
      running := burst.running;
      forall i | 0 <= i < |handles|
        ensures handles[i].View() == old(handles[i].View())
      {
      }
    }

    /** curl_multi_perform: the next burst, or nothing when no transfer is left. */
    method Perform(ghost me: nat, ghost toFill: array<byte>, ghost max: nat) returns (burst: Burst)
      requires Wired() && Scripted() && me < |handles| && Attended(me, toFill, max)
      modifies this`script, this`running, Streams(), Caches(), toFill
      ensures Wired() && Scripted() && Attended(me, toFill, max)
      ensures burst == (if old(script) == [] then NO_BURST else old(script)[0])
      ensures script == (if old(script) == [] then [] else old(script)[1..])
      ensures running == burst.running && LinesOk(burst.deliveries)
      ensures Moved(old(ViewsOf(handles)), ViewsOf(handles), CachesOf(handles), burst.deliveries, me)
      ensures gone == old(gone)
    {
      burst := Next();
      assert ScriptOk([burst], |handles|, gone) && [burst][0] == burst;
      DeliverAll(burst.deliveries, me, toFill, max);
    }

    /** A step of stream `me` that may read its cache object. */
    twostate lemma {:induction false} ServeStep(me: nat)
      requires Wired() && me < |handles|
      requires forall t | t in handles && t != handles[me] :: unchanged(t)
      requires forall t | t in handles && t.cacheObject != handles[me].cacheObject :: unchanged(t.cacheObject)
      requires var s := handles[me];
        && s.View() == old(s.View()).(served := s.served, finished := s.bTransferFinished, coherent := s.Coherent(),
                                      view := s.cacheObject.View())
        && (old(s.Coherent()) ==> s.Coherent())
        && (old(s.cacheObject.View().Readable()) ==> s.cacheObject.View().Readable())
      ensures Served(old(ViewsOf(handles)), ViewsOf(handles), CachesOf(handles), me)
    {
      var b, c, caches := old(ViewsOf(handles)), ViewsOf(handles), CachesOf(handles);
      forall i | 0 <= i < |handles|
        ensures i != me ==> c[i] == b[i].(coherent := c[i].coherent, view := c[i].view)
        ensures Unshared(caches, i) && b[i].coherent ==> c[i].coherent
        ensures caches[i] != caches[me] ==> c[i].view == b[i].view
        ensures b[i].view.Readable() ==> c[i].view.Readable()
      {
        var t := handles[i];
        assert t in handles && Apart(i, me);
        if i != me {
          assert unchanged(t);
          if t.cacheObject != handles[me].cacheObject {
            assert unchanged(t.cacheObject);
          }
        }
      }
    }

    /** A step of stream `me` on its own, without curl. */
    twostate lemma {:induction false} OwnStep(me: nat)
      requires Wired() && me < |handles|
      requires forall t | t in handles && t != handles[me] :: unchanged(t)
      requires forall t | t in handles ::
        t.cacheObject.View() == old(t.cacheObject.View())
          && TagsOf(t.cacheObject.headers) == old(TagsOf(t.cacheObject.headers))
      requires handles[me].Record() == old(handles[me].Record()) && old(handles[me].delivered) <= handles[me].delivered
      ensures Flowed(old(ViewsOf(handles)), ViewsOf(handles), CachesOf(handles), [], me)
    {
      var a, b := old(ViewsOf(handles)), ViewsOf(handles);
      forall i | 0 <= i < |handles|
        ensures i != me ==> b[i] == a[i]
        ensures i == me ==> b[i].coherent == a[i].coherent && b[i].view == a[i].view
      {
        var t := handles[i];
        assert t in handles && Apart(i, me);
        if i != me {
          assert unchanged(t);
        }
      }
      OwnFlows(a, b, CachesOf(handles), me);
    }
  }
}
