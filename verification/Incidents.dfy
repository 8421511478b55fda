/**
 Concrete runs in which something goes wrong: an entry that gets stuck, a body whose validators run
 ahead of it, and a lost cache object. Each is what RunSessions does with the jobs named here.
 */
module Incidents {
  import opened Bytes
  import opened Zlib
  import opened CacheObjects
  import opened HttpHeaders
  import opened HttpStreams
  import opened HttpSessions
  import opened Lifetimes
  import opened Runs

  // ---- A response that comes in one piece ------------------------------------------------

  function Heads(lines: seq<string>): seq<Delivery> {
    seq(|lines|, i requires 0 <= i < |lines| => Delivery(0, Header(lines[i])))
  }

  function Calls(resp: Response): seq<Delivery> {
    Heads(resp.lines) + if resp.body == [] then [] else [Delivery(0, Body(resp.body))]
  }

  /** All header lines, the body if there is one, and the end of the transfer. */
  function PlayOut(resp: Response): seq<Burst> {
    [Burst(Calls(resp), false, [Done(CURLE_OK)], 0, [resp.code])]
  }

  lemma {:induction false} HeadsHaveNoBody(lines: seq<string>)
    ensures BodyTo(0, Heads(lines)) == []
  {
    if lines != [] {
      var n := |lines| - 1;
      assert Heads(lines)[..n] == Heads(lines[..n]);
      HeadsHaveNoBody(lines[..n]);
    }
  }

  lemma {:induction false} CallsPlay(resp: Response)
    requires resp.code == 304 ==> resp.body == []
    ensures Shaped(Calls(resp), resp) && Complete(Calls(resp), resp)
  {
    var heads, ds := Heads(resp.lines), Calls(resp);
    HeadsHaveNoBody(resp.lines);
    if resp.body == [] {
      assert ds == heads;
    } else {
      assert ds[..|ds| - 1] == heads;
    }
    forall i: nat
      ensures CallAt(ds, i, resp.lines)
    {
      if i < |resp.lines| {
        assert ds[i] == heads[i] == Delivery(0, Header(resp.lines[i]));
      }
    }
  }

  lemma {:induction false} OneBurst(burst: Burst)
    ensures Deliveries([burst]) == burst.deliveries && Deliveries([]) == []
    ensures ErrorOf([burst], 0) == FirstError(burst.messages, CodeOf(burst, 0))
  {
    assert [burst][..0] == [] && [burst] == [] + [burst];
    assert Deliveries([]) == [];
  }

  /** Every response can be played. */
  lemma {:induction false} PlayOutPlays(resp: Response)
    requires WellFormed(resp) && (resp.code == 304 ==> resp.body == [])
    ensures Plays(PlayOut(resp), resp) && !Breaks(PlayOut(resp))
    ensures ErrorOf(PlayOut(resp), 0) == MessageError(Done(CURLE_OK), resp.code)
  {
    var script := PlayOut(resp);
    CallsPlay(resp);
    OneBurst(script[0]);
    assert script[..0] == [] && script[..1] == script;
    assert script[0].messages[1..] == [];
    forall k: nat
      ensures ShapedUpTo(script, k, resp) && EndsRight(script, k, resp) && EndsOpenly(script, k)
    {
      if k == 0 {
        assert Done(CURLE_OK) in script[0].messages;
      }
    }
  }

  // ---- Lifetimes that go a known way ------------------------------------------------

  /** A reader that asks for more than there is gets all of it, and has it when the last read gives nothing. */
  lemma {:induction false} ReadsAll(log: SessionLog, job: Job)
    requires Meets(log, job) && Honest(log) && job.resp.code != 304 && ErrorOf(job.script, 0) == None
    requires job.plan.Sizes? && |job.resp.body| < |job.plan.sizes|
    ensures log.ended && log.lines == job.resp.lines && log.out == log.got == job.resp.body
    ensures Hits(log.pieces, |job.resp.body|)
  {
    HitsWithin(log.pieces, 0);
  }

  /** If a line says 200 and announces the length, that is stored. */
  lemma {:induction false} TakesAll(log: SessionLog, job: Job)
    requires Meets(log, job) && Honest(log) && job.use && job.resp.code != 304 && ErrorOf(job.script, 0) == None
    requires job.plan.Sizes? && |job.resp.body| < |job.plan.sizes|
    requires Says(job.resp.lines) && Announced(job.resp.lines) == |job.resp.body|
    ensures Takes(log) && log.lines == job.resp.lines && log.got == job.resp.body
  {
    ReadsAll(log, job);
  }

  /** A reader that asks for less leaves the rest. */
  lemma {:induction false} LeavesRest(log: SessionLog, job: Job)
    requires Meets(log, job) && Honest(log) && job.use && job.resp.code != 304 && ErrorOf(job.script, 0) == None
    requires job.plan.Sizes? && job.plan.sizes != [] && Sum(job.plan.sizes) < |job.resp.body|
    requires Says(job.resp.lines) && Announced(job.resp.lines) == |job.resp.body|
    ensures Begins(log) && !Stores(log)
  {
    HitsWithin(log.pieces, |job.resp.body|);
  }

  // ---- The responses ------------------------------------------------

  const URL: string := "http://host/doc"
  const OK_LINE: string := "HTTP/1.1 200 OK\r\n"
  const GONE_LINE: string := "HTTP/1.1 404 Gone\r\n"
  const SAME_LINE: string := "HTTP/1.1 304 Same\r\n"

  function TagLine(tag: string): string {
    "ETag: " + ("\"" + (tag + ("\"" + CRLF)))
  }

  function LengthLine(n: nat): string {
    "Content-Length: " + Decimal(n) + CRLF
  }

  function Full(tag: string, body: seq<byte>): Response {
    Response(200, [OK_LINE, TagLine(tag), LengthLine(|body|)], body)
  }

  function Missing(tag: string): Response {
    Response(404, [GONE_LINE, TagLine(tag)], [])
  }

  const UNCHANGED: Response := Response(304, [SAME_LINE], [])

  lemma {:induction false} TagLineIs(tag: string)
    requires '\0' !in tag
    ensures HeaderLine(TagLine(tag)) && Kind(TagLine(tag)) == EtagLine && CString(EtagOf(TagLine(tag))) == tag
  {
    var line := TagLine(tag);
    assert line[0] == 'E' && line[6] == '"' && |line| == |tag| + 10;
    assert line[7..|line| - 3] == tag;
    CStringWhole(tag);
  }

  lemma {:induction false} LengthLineIs(n: nat)
    requires n < SIZE_T
    ensures HeaderLine(LengthLine(n)) && Kind(LengthLine(n)) == ContentLengthLine && ContentLengthOf(LengthLine(n)) == n
  {
    var line := LengthLine(n);
    assert line[0] == 'C' && CONTENT_LENGTH <= line;
    ContentLengthRoundTrip(n);
  }

  lemma {:induction false} StatusLines()
    ensures HeaderLine(OK_LINE) && SaysOk(OK_LINE) && Kind(OK_LINE) == StatusLine
    ensures HeaderLine(GONE_LINE) && Kind(GONE_LINE) == StatusLine && !SaysOk(GONE_LINE)
    ensures HeaderLine(SAME_LINE) && Kind(SAME_LINE) == StatusLine && !SaysOk(SAME_LINE)
  {
    assert OkAt(OK_LINE, 8);
  }

  lemma {:induction false} FullIsWellFormed(tag: string, body: seq<byte>)
    requires '\0' !in tag && |body| < SIZE_T
    ensures WellFormed(Full(tag, body))
    ensures Says(Full(tag, body).lines) && Announced(Full(tag, body).lines) == |body|
  {
    StatusLines();
    TagLineIs(tag);
    LengthLineIs(|body|);
    var lines := Full(tag, body).lines;
    SaysIs(lines);
    assert lines[0] == OK_LINE && lines[2] == LengthLine(|body|);
  }

  lemma {:induction false} OthersAreWellFormed(tag: string)
    requires '\0' !in tag
    ensures WellFormed(Missing(tag)) && !Says(Missing(tag).lines)
    ensures WellFormed(UNCHANGED) && !Says(UNCHANGED.lines)
  {
    StatusLines();
    TagLineIs(tag);
    SaysIs(Missing(tag).lines);
    SaysIs(UNCHANGED.lines);
  }

  function Get(resp: Response, sizes: seq<nat>): Job {
    Job(URL, true, PlayOut(resp), resp, Sizes(sizes))
  }

  lemma {:induction false} FullPlays(tag: string, body: seq<byte>)
    requires '\0' !in tag && |body| < SIZE_T
    ensures Plays(PlayOut(Full(tag, body)), Full(tag, body)) && ErrorOf(PlayOut(Full(tag, body)), 0) == None
    ensures Says(Full(tag, body).lines) && Announced(Full(tag, body).lines) == |body|
  {
    FullIsWellFormed(tag, body);
    PlayOutPlays(Full(tag, body));
  }

  lemma {:induction false} FullTaken(log: SessionLog, tag: string, body: seq<byte>, sizes: seq<nat>)
    requires '\0' !in tag && 0 < |body| < |sizes| && |body| < SIZE_T
    requires Meets(log, Get(Full(tag, body), sizes)) && Honest(log)
    ensures log.url == URL && Takes(log) && log.got == body && log.lines == Full(tag, body).lines
  {
    FullPlays(tag, body);
    TakesAll(log, Get(Full(tag, body), sizes));
  }

  lemma {:induction false} FullLeft(log: SessionLog, tag: string, body: seq<byte>, sizes: seq<nat>)
    requires '\0' !in tag && sizes != [] && Sum(sizes) < |body| < SIZE_T
    requires Meets(log, Get(Full(tag, body), sizes)) && Honest(log)
    ensures log.url == URL && Begins(log) && !Stores(log)
  {
    FullPlays(tag, body);
    LeavesRest(log, Get(Full(tag, body), sizes));
  }

  /** An answer that is not kept leaves what is cached, and its lines are read in full. */
  lemma {:induction false} MissingHeard(log: SessionLog, tag: string, sizes: seq<nat>)
    requires '\0' !in tag && sizes != [] && Meets(log, Get(Missing(tag), sizes)) && Honest(log)
    ensures log.url == URL && log.use && log.lines == Missing(tag).lines && !Stores(log) && !Abandons(log)
  {
    OthersAreWellFormed(tag);
    PlayOutPlays(Missing(tag));
  }

  // ---- An aborted refresh ------------------------------------------------

  /** The document is taken in full; then a longer one comes, and the caller stops after one byte. */
  function AbortedRefresh(): seq<Job> {
    [Get(Full("a", [1]), [4, 4]), Get(Full("b", [1, 2]), [1])]
  }

  lemma {:induction false} AllPlayable(a: Job, b: Job, c: Job)
    requires Playable(a) && Playable(b) && Playable(c)
    ensures (forall job | job in [a, b] :: Playable(job)) && forall job | job in [a, b, c] :: Playable(job)
  {
  }

  lemma {:induction false} GetPlays(resp: Response, sizes: seq<nat>)
    requires WellFormed(resp) && (resp.code == 304 ==> resp.body == []) && forall n | n in sizes :: 0 < n
    ensures Playable(Get(resp, sizes))
  {
    PlayOutPlays(resp);
  }

  lemma {:induction false} AbortedRefreshPlays()
    ensures forall job | job in AbortedRefresh() :: Playable(job)
  {
    FullIsWellFormed("a", [1]);
    FullIsWellFormed("b", [1, 2]);
    GetPlays(Full("a", [1]), [4, 4]);
    GetPlays(Full("b", [1, 2]), [1]);
    AllPlayable(Get(Full("a", [1]), [4, 4]), Get(Full("b", [1, 2]), [1]), Get(Full("b", [1, 2]), [1]));
  }

  lemma {:induction false} SticksAfterTwo(states: seq<map<string, Content>>, logs: seq<SessionLog>)
    requires Run(states, logs) && |logs| == 2 && logs[0].url == logs[1].url == URL
    requires Stores(logs[0]) && Begins(logs[1]) && !Stores(logs[1])
    ensures HasStored(states[1], URL) && IsStuck(states[2], URL)
  {
    assert StepAt(states, logs, 0) && StepAt(states, logs, 1);
  }

  lemma {:induction false} AbortedRefreshSticks(states: seq<map<string, Content>>, logs: seq<SessionLog>)
    requires Run(states, logs) && |logs| == 2 && AllFollow(logs, AbortedRefresh())
    ensures HasStored(states[1], URL) && IsStuck(states[2], URL)
  {
    SumOne(1);
    HonestIn(states, logs, 0);
    HonestIn(states, logs, 1);
    FullTaken(logs[0], "a", [1], [4, 4]);
    FullLeft(logs[1], "b", [1, 2], [1]);
    SticksAfterTwo(states, logs);
  }

  lemma {:induction false} SumOne(n: nat)
    ensures Sum([n]) == n
  {
    assert [n][1..] == [];
  }

  /** This is a run, and at its end the entry is stuck. */
  method RunAbortedRefresh(zlib: Zlib) returns (logs: seq<SessionLog>, ghost past: History)
    ensures Run(past.states, logs) && |logs| == 2 && AllFollow(logs, AbortedRefresh())
    ensures IsStuck(past.states[2], URL)
  {
    AbortedRefreshPlays();
    ghost var left;
    logs, past, left := RunSessions(zlib, AbortedRefresh());
    AbortedRefreshSticks(past.states, logs);
  }

  // ---- Validators of something else ------------------------------------------------

  /** The document is taken in full; then it is gone, and the answer has a tag; then it is asked for once more. */
  function GoneAndBack(): seq<Job> {
    [Get(Full("a", [1]), [4, 4]), Get(Missing("b"), [1]), Get(UNCHANGED, [4])]
  }

  lemma {:induction false} GoneAndBackPlays()
    ensures forall job | job in GoneAndBack() :: Playable(job)
  {
    FullIsWellFormed("a", [1]);
    OthersAreWellFormed("b");
    GetPlays(Full("a", [1]), [4, 4]);
    GetPlays(Missing("b"), [1]);
    GetPlays(UNCHANGED, [4]);
    AllPlayable(Get(Full("a", [1]), [4, 4]), Get(Missing("b"), [1]), Get(UNCHANGED, [4]));
  }

  lemma {:induction false} TagsAfterMissing(t: Tags, tag: string)
    requires '\0' !in tag
    ensures (forall line | line in Missing(tag).lines :: HeaderLine(line))
      && TagsAll(t, Missing(tag).lines).etag == Some(tag)
  {
    StatusLines();
    TagLineIs(tag);
    var lines := Missing(tag).lines;
    assert lines[..1] == [GONE_LINE] && lines[1] == TagLine(tag);
  }

  lemma {:induction false} TagsAfterFull(t: Tags, tag: string, body: seq<byte>)
    requires '\0' !in tag && |body| < SIZE_T
    ensures (forall line | line in Full(tag, body).lines :: HeaderLine(line))
      && TagsAll(t, Full(tag, body).lines).etag == Some(tag)
  {
    StatusLines();
    TagLineIs(tag);
    LengthLineIs(|body|);
    var lines := Full(tag, body).lines;
    assert lines[..2] == [OK_LINE, TagLine(tag)] && lines[..2][..1] == [OK_LINE] && [OK_LINE][..0] == [];
    assert lines[2] == LengthLine(|body|) && lines[..2][1] == TagLine(tag);
  }

  /** The first lifetime stores the body with its tag. */
  lemma {:induction false} StoredWithTag(states: seq<map<string, Content>>, tags: seq<map<string, Tags>>,
      logs: seq<SessionLog>, tag: string, body: seq<byte>)
    requires Run(states, logs) && TagRun(states, tags, logs) && 0 < |logs| && '\0' !in tag && |body| < SIZE_T
    requires logs[0].url == URL && Takes(logs[0]) && logs[0].got == body && logs[0].lines == Full(tag, body).lines
    ensures URL in states[1] && states[1][URL] == Stored(body) && URL in tags[1] && tags[1][URL].etag == Some(tag)
  {
    assert StepAt(states, logs, 0) && TagsAtStep(states, tags, logs, 0) && TagsAtStep(states, tags, logs, 1);
    TagsAfterFull(NO_TAGS, tag, body);
  }

  /** The second one gives it another. */
  lemma {:induction false} TaggedAnew(states: seq<map<string, Content>>, tags: seq<map<string, Tags>>,
      logs: seq<SessionLog>, tag: string)
    requires Run(states, logs) && TagRun(states, tags, logs) && 1 < |logs| && '\0' !in tag
    requires HasStored(states[1], URL) && logs[1].url == URL && logs[1].use && !Stores(logs[1]) && !Abandons(logs[1])
    requires logs[1].lines == Missing(tag).lines
    ensures URL in states[2] && states[2][URL] == states[1][URL] && URL in tags[2] && tags[2][URL].etag == Some(tag)
    ensures URL in tags[1]
  {
    assert StepAt(states, logs, 1) && TagsAtStep(states, tags, logs, 1) && TagsAtStep(states, tags, logs, 2);
    TagsAfterMissing(tags[1][URL], tag);
  }

  /** The third asks for what is not there. */
  lemma {:induction false} GoneAndBackAsksForOther(states: seq<map<string, Content>>, tags: seq<map<string, Tags>>,
      logs: seq<SessionLog>)
    requires Run(states, logs) && TagRun(states, tags, logs) && |logs| == 3 && AllFollow(logs, GoneAndBack())
    ensures HasStored(states[2], URL) && states[2][URL] == Stored([1])
    ensures URL in tags[1] && tags[1][URL].etag == Some("a") && URL in tags[2] && tags[2][URL].etag == Some("b")
    ensures logs[2].sent.ifNoneMatch == Some("\"b\"")
  {
    HonestIn(states, logs, 0);
    HonestIn(states, logs, 1);
    assert Meets(logs[2], GoneAndBack()[2]);
    FullTaken(logs[0], "a", [1], [4, 4]);
    MissingHeard(logs[1], "b", [1]);
    StoredWithTag(states, tags, logs, "a", [1]);
    TaggedAnew(states, tags, logs, "b");
    AsksForTag(states, tags, logs, "b");
    assert "\"" + "b" + "\"" == "\"b\"";
  }

  lemma {:induction false} AsksForTag(states: seq<map<string, Content>>, tags: seq<map<string, Tags>>,
      logs: seq<SessionLog>, tag: string)
    requires Run(states, logs) && TagRun(states, tags, logs) && |logs| == 3 && logs[2].url == URL
    requires HasStored(states[2], URL) && URL in tags[2] && tags[2][URL].etag == Some(tag)
    ensures logs[2].sent.ifNoneMatch == Some("\"" + tag + "\"")
  {
    assert StepAt(states, logs, 2) && TagsAtStep(states, tags, logs, 2);
  }

  method RunGoneAndBack(zlib: Zlib) returns (logs: seq<SessionLog>, ghost past: History)
    ensures Run(past.states, logs) && TagRun(past.states, past.tags, logs) && |logs| == 3
      && AllFollow(logs, GoneAndBack())
    ensures HasStored(past.states[2], URL) && past.states[2][URL] == Stored([1])
    ensures logs[2].sent.ifNoneMatch == Some("\"b\"")
  {
    GoneAndBackPlays();
    ghost var left;
    logs, past, left := RunSessions(zlib, GoneAndBack());
    GoneAndBackAsksForOther(past.states, past.tags, logs);
  }

  // ---- A lost object ------------------------------------------------

  /** Nothing is cached, and the answer is that it has not changed. */
  function Unsolicited(): seq<Job> {
    [Get(UNCHANGED, [4])]
  }

  lemma {:induction false} UnsolicitedIsHeard(states: seq<map<string, Content>>, logs: seq<SessionLog>)
    requires Run(states, logs) && |logs| == 1 && AllFollow(logs, Unsolicited())
    ensures Lost(logs) == 1
  {
    OthersAreWellFormed("");
    PlayOutPlays(UNCHANGED);
    assert Meets(logs[0], Unsolicited()[0]) && StepAt(states, logs, 0);
    assert logs[..0] == [];
  }

  method RunUnsolicited(zlib: Zlib) returns (logs: seq<SessionLog>, ghost past: History, ghost left: set<CacheObject>)
    ensures Run(past.states, logs) && |logs| == 1 && AllFollow(logs, Unsolicited())
    ensures |left| == 1
  {
    OthersAreWellFormed("");
    PlayOutPlays(UNCHANGED);
    logs, past, left := RunSessions(zlib, Unsolicited());
    UnsolicitedIsHeard(past.states, logs);
  }

  // ---- Caching switched off ------------------------------------------------

  /** The document is cached; then it is asked for with caching off, and has not changed. */
  function SwitchedOff(): seq<Job> {
    [Get(Full("a", [1]), [4, 4]), Job(URL, false, PlayOut(UNCHANGED), UNCHANGED, Sizes([4]))]
  }

  lemma {:induction false} SwitchedOffPlays()
    ensures forall job | job in SwitchedOff() :: Playable(job)
  {
    FullIsWellFormed("a", [1]);
    OthersAreWellFormed("");
    GetPlays(Full("a", [1]), [4, 4]);
    PlayOutPlays(UNCHANGED);
    var b := Job(URL, false, PlayOut(UNCHANGED), UNCHANGED, Sizes([4]));
    AllPlayable(Get(Full("a", [1]), [4, 4]), b, b);
  }

  lemma {:induction false} EndedOn304(log: SessionLog)
    requires Honest(log) && Meets(log, SwitchedOff()[1])
    requires log.out == []
    ensures log.ended && log.url == URL && log.code == 304 && !log.use
  {
    OthersAreWellFormed("");
    PlayOutPlays(UNCHANGED);
  }

  lemma {:induction false} NothingOn304(states: seq<map<string, Content>>, logs: seq<SessionLog>, i: nat)
    requires Run(states, logs) && i < |logs| && logs[i].code == 304 && !logs[i].use
    ensures logs[i].out == []
  {
    assert StepAt(states, logs, i);
  }

  lemma {:induction false} SwitchedOffIsEmpty(states: seq<map<string, Content>>, tags: seq<map<string, Tags>>,
      logs: seq<SessionLog>)
    requires Run(states, logs) && TagRun(states, tags, logs) && |logs| == 2 && AllFollow(logs, SwitchedOff())
    ensures HasStored(states[1], URL) && states[1][URL] == Stored([1])
    ensures logs[1].sent.ifNoneMatch == Some("\"a\"") && logs[1].ended && logs[1].out == []
  {
    HonestIn(states, logs, 0);
    HonestIn(states, logs, 1);
    assert Meets(logs[1], SwitchedOff()[1]);
    FullTaken(logs[0], "a", [1], [4, 4]);
    StoredWithTag(states, tags, logs, "a", [1]);
    NothingOn304(states, logs, 1);
    EndedOn304(logs[1]);
    assert StepAt(states, logs, 1) && TagsAtStep(states, tags, logs, 1);
    assert "\"" + "a" + "\"" == "\"a\"";
  }

  method RunSwitchedOff(zlib: Zlib) returns (logs: seq<SessionLog>, ghost past: History)
    ensures Run(past.states, logs) && |logs| == 2 && AllFollow(logs, SwitchedOff())
    ensures logs[1].sent.ifNoneMatch == Some("\"a\"") && logs[1].ended && logs[1].out == []
  {
    SwitchedOffPlays();
    ghost var left;
    logs, past, left := RunSessions(zlib, SwitchedOff());
    SwitchedOffIsEmpty(past.states, past.tags, logs);
  }

  // ---- A 304 behind a line that says 200 ------------------------------------------------

  /** A proxy has answered CONNECT with a 200; the document has not changed, and its length is given. */
  const TUNNELLED: Response := Response(304, [OK_LINE, SAME_LINE, LengthLine(2)], [])

  lemma {:induction false} TunnelledIsWellFormed()
    ensures WellFormed(TUNNELLED) && Says(TUNNELLED.lines) && Announced(TUNNELLED.lines) == 2
  {
    StatusLines();
    LengthLineIs(2);
    var lines := TUNNELLED.lines;
    SaysIs(lines);
    assert lines[0] == OK_LINE && lines[2] == LengthLine(2);
  }

  /** The document is taken in full, then it has not changed, twice. */
  function ThroughProxy(): seq<Job> {
    [Get(Full("a", [1, 2]), [4, 4, 4]), Get(TUNNELLED, [4, 4]), Get(UNCHANGED, [4])]
  }

  lemma {:induction false} ThroughProxyPlays()
    ensures forall job | job in ThroughProxy() :: Playable(job)
  {
    FullIsWellFormed("a", [1, 2]);
    TunnelledIsWellFormed();
    OthersAreWellFormed("");
    GetPlays(Full("a", [1, 2]), [4, 4, 4]);
    GetPlays(TUNNELLED, [4, 4]);
    GetPlays(UNCHANGED, [4]);
    AllPlayable(Get(Full("a", [1, 2]), [4, 4, 4]), Get(TUNNELLED, [4, 4]), Get(UNCHANGED, [4]));
  }

  /** The cached document is delivered, and as it is as long as announced, nothing is stored for it. */
  lemma {:induction false} TunnelledSpoils(log: SessionLog, data: seq<byte>)
    requires Meets(log, Get(TUNNELLED, [4, 4])) && Honest(log) && log.out <= data && |data| == 2
    requires log.ended ==> log.out == data
    ensures log.url == URL && Stores(log) && log.got == [] && log.out == data
  {
    TunnelledIsWellFormed();
    PlayOutPlays(TUNNELLED);
    HitsWithin(log.pieces, 2);
    SpoilsExactly(log);
  }

  /** A cached document that was emptied is delivered as nothing. */
  lemma {:induction false} EmptiedBySecond(states: seq<map<string, Content>>, logs: seq<SessionLog>)
    requires Run(states, logs) && |logs| == 3 && AllFollow(logs, ThroughProxy())
    ensures HasStored(states[1], URL) && states[1][URL] == Stored([1, 2])
    ensures Spoils(logs[1]) && logs[1].out == [1, 2]
    ensures HasStored(states[2], URL) && states[2][URL] == Stored([])
  {
    HonestIn(states, logs, 0);
    HonestIn(states, logs, 1);
    FullTaken(logs[0], "a", [1, 2], [4, 4, 4]);
    assert Meets(logs[1], ThroughProxy()[1]) && StepAt(states, logs, 0) && StepAt(states, logs, 1);
    TunnelledSpoils(logs[1], [1, 2]);
  }

  lemma {:induction false} ThirdGetsNothing(states: seq<map<string, Content>>, logs: seq<SessionLog>)
    requires Run(states, logs) && |logs| == 3 && AllFollow(logs, ThroughProxy())
    requires HasStored(states[2], URL) && states[2][URL] == Stored([])
    ensures logs[2].known && logs[2].ended && logs[2].out == []
  {
    OthersAreWellFormed("");
    PlayOutPlays(UNCHANGED);
    assert Meets(logs[2], ThroughProxy()[2]) && StepAt(states, logs, 2);
  }

  /** This happens. */
  method RunThroughProxy(zlib: Zlib) returns (logs: seq<SessionLog>, ghost past: History)
    ensures Run(past.states, logs) && |logs| == 3 && AllFollow(logs, ThroughProxy())
    ensures logs[1].out == [1, 2] && HasStored(past.states[2], URL) && past.states[2][URL] == Stored([])
    ensures logs[2].known && logs[2].ended && logs[2].out == []
  {
    ThroughProxyPlays();
    ghost var left;
    logs, past, left := RunSessions(zlib, ThroughProxy());
    EmptiedBySecond(past.states, logs);
    ThirdGetsNothing(past.states, logs);
  }

  // ---- An answer that is an error ------------------------------------------------

  /**
   An answer with any other code than 0, 200 and 304 is an error, whatever comes with it. If the
   transfer does not break off, a caller that reads on gets an exception exactly for such an answer:
   access is denied for 401, 403 and 407, and the document is not found for all other codes.
   No read ever says that this was all.
   */
  lemma {:induction false} RefusedExactly(log: SessionLog, job: Job)
    requires Meets(log, job) && Honest(log) && !Breaks(job.script)
    requires job.plan.ToEnd? || (job.plan.Sizes? && |job.resp.body| < |job.plan.sizes|)
    ensures log.threw <==> log.code !in {0, 200, 304}
    ensures log.threw ==> log.error == if log.code in {401, 403, 407} then ACCESS_DENIED else NOT_FOUND
    ensures log.threw ==> !log.ended && log.lines == job.resp.lines && log.out <= job.resp.body
  {
  }

  /** Every such answer, read to its end. */
  method RunRefused(zlib: Zlib, resp: Response, size: nat) returns (log: SessionLog)
    requires WellFormed(resp) && resp.code !in {0, 200, 304} && 0 < size
    ensures log.url == URL && log.code == resp.code && log.threw && !log.ended && log.out <= resp.body
    ensures log.error == if resp.code in {401, 403, 407} then ACCESS_DENIED else NOT_FOUND
  {
    PlayOutPlays(resp);
    var job := Job(URL, true, PlayOut(resp), resp, ToEnd(size));
    var logs; ghost var past, left;
    logs, past, left := RunSessions(zlib, [job]);
    HonestIn(past.states, logs, 0);
    assert Meets(logs[0], [job][0]);
    RefusedExactly(logs[0], job);
    log := logs[0];
  }

  /** A document that is gone, also when the server sends a page about that. */
  method RunMissing(zlib: Zlib, page: seq<byte>) returns (missing: SessionLog, withPage: SessionLog)
    ensures missing.threw && missing.error == NOT_FOUND && missing.out == []
    ensures withPage.threw && withPage.error == NOT_FOUND && !withPage.ended
  {
    OthersAreWellFormed("b");
    missing := RunRefused(zlib, Missing("b"), 4096);
    withPage := RunRefused(zlib, Missing("b").(body := page), 4096);
  }

  // ---- A 200 of unannounced length ------------------------------------------------

  /** Chunked transfer coding, say: there is no Content-Length. */
  function Unannounced(body: seq<byte>): Response {
    Response(200, [OK_LINE], body)
  }

  lemma {:induction false} UnannouncedIsWellFormed(body: seq<byte>)
    ensures WellFormed(Unannounced(body)) && Says(Unannounced(body).lines) && Announced(Unannounced(body).lines) == 0
  {
    StatusLines();
    SaysIs(Unannounced(body).lines);
    assert Unannounced(body).lines[0] == OK_LINE;
  }

  /** The document is taken in full; then another comes, of unannounced length, and is read in full. */
  function ChunkedRefresh(): seq<Job> {
    [Get(Full("a", [1]), [4, 4]), Get(Unannounced([1, 2]), [4, 4, 4])]
  }

  lemma {:induction false} ChunkedRefreshPlays()
    ensures forall job | job in ChunkedRefresh() :: Playable(job)
  {
    FullIsWellFormed("a", [1]);
    UnannouncedIsWellFormed([1, 2]);
    GetPlays(Full("a", [1]), [4, 4]);
    GetPlays(Unannounced([1, 2]), [4, 4, 4]);
    AllPlayable(Get(Full("a", [1]), [4, 4]), Get(Unannounced([1, 2]), [4, 4, 4]), Get(Unannounced([1, 2]), [4, 4, 4]));
  }

  lemma {:induction false} UnannouncedIsNotStored(log: SessionLog, body: seq<byte>, sizes: seq<nat>)
    requires 0 < |body| < |sizes| && Meets(log, Get(Unannounced(body), sizes)) && Honest(log)
    ensures log.url == URL && log.ended && log.out == body && Begins(log) && !Stores(log)
  {
    UnannouncedIsWellFormed(body);
    PlayOutPlays(Unannounced(body));
    ReadsAll(log, Get(Unannounced(body), sizes));
    NeverNothing(log.pieces, log.ended);
  }

  /** Reads that gave something never left the caller with nothing. */
  lemma {:induction false} NeverNothing(pieces: seq<seq<byte>>, ended: bool)
    requires Stepwise(pieces, ended)
    ensures Hits(pieces, 0) ==> Flatten(pieces) == []
  {
    ZeroHits(pieces);
    if pieces != [] && pieces[0] == [] {
      assert |pieces| == 1 && pieces[..0] == [];
    }
  }

  lemma {:induction false} ChunkedRefreshSticks(states: seq<map<string, Content>>, logs: seq<SessionLog>)
    requires Run(states, logs) && |logs| == 2 && AllFollow(logs, ChunkedRefresh())
    ensures HasStored(states[1], URL) && logs[1].ended && logs[1].out == [1, 2] && IsStuck(states[2], URL)
  {
    HonestIn(states, logs, 0);
    HonestIn(states, logs, 1);
    FullTaken(logs[0], "a", [1], [4, 4]);
    UnannouncedIsNotStored(logs[1], [1, 2], [4, 4, 4]);
    SticksAfterTwo(states, logs);
  }

  /** This happens: nothing was broken off, and the entry is stuck. */
  method RunChunkedRefresh(zlib: Zlib) returns (logs: seq<SessionLog>, ghost past: History)
    ensures Run(past.states, logs) && |logs| == 2 && AllFollow(logs, ChunkedRefresh())
    ensures logs[1].ended && logs[1].out == [1, 2] && IsStuck(past.states[2], URL)
  {
    ChunkedRefreshPlays();
    ghost var left;
    logs, past, left := RunSessions(zlib, ChunkedRefresh());
    ChunkedRefreshSticks(past.states, logs);
  }
}
