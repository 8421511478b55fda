/**
 Runs: any series of non-overlapping lifetimes on any URLs, starting from an empty cache and
 answered in any way without redirects, with any header lines. What a caller gets after a 304 is what
 came for the latest lifetime that stored something, and that is the body that was taken last,
 unless a later lifetime has spoilt it.
 */
module Runs {
  import opened Bytes
  import opened Zlib
  import opened CacheObjects
  import opened CacheIndex
  import opened HttpHeaders
  import opened HttpStreams
  import opened HttpSessions
  import opened Lifetimes

  ghost predicate StepAt(states: seq<map<string, Content>>, logs: seq<SessionLog>, i: nat) {
    i < |logs| && i + 1 < |states| ==> SessionStep(states[i], logs[i], states[i + 1])
  }

  /** states[i] is what is cached before the lifetime logs[i]. */
  ghost predicate Run(states: seq<map<string, Content>>, logs: seq<SessionLog>) {
    && |states| == |logs| + 1 && states[0] == map[]
    && forall i: nat :: StepAt(states, logs, i)
  }

  /** The latest of the first k lifetimes that stored something under the URL. */
  ghost function LastStored(logs: seq<SessionLog>, k: nat, url: string): (r: Option<nat>)
    requires k <= |logs|
    ensures r.Some? ==> r.value < k && Stores(logs[r.value]) && logs[r.value].url == url
    ensures forall i | 0 <= i < k && Stores(logs[i]) && logs[i].url == url :: r.Some? && i <= r.value
  {
    if k == 0 then None
    else if Stores(logs[k - 1]) && logs[k - 1].url == url then Some(k - 1) else LastStored(logs, k - 1, url)
  }

  /** The latest of them whose caller took the whole body of the answer, all of which was stored. */
  ghost function LastTaken(logs: seq<SessionLog>, k: nat, url: string): (r: Option<nat>)
    requires k <= |logs|
    ensures r.Some? ==> r.value < k && Takes(logs[r.value]) && logs[r.value].url == url
    ensures forall i | 0 <= i < k && Takes(logs[i]) && logs[i].url == url :: r.Some? && i <= r.value
  {
    if k == 0 then None
    else if Takes(logs[k - 1]) && logs[k - 1].url == url then Some(k - 1) else LastTaken(logs, k - 1, url)
  }

  /** Every finished entry holds what came for the latest lifetime that stored something under its URL. */
  lemma {:induction false} EntriesAreAnswers(states: seq<map<string, Content>>, logs: seq<SessionLog>, k: nat,
      url: string)
    requires Run(states, logs) && k <= |logs| && HasStored(states[k], url)
    ensures var last := LastStored(logs, k, url);
      && last.Some? && states[k][url] == Stored(logs[last.value].got)
      && !IsStuck(states[last.value], url)
      && forall i | last.value < i <= k :: HasStored(states[i], url)
  {
    if k > 0 {
      var log, a := logs[k - 1], states[k - 1];
      assert StepAt(states, logs, k - 1);
      if !(Stores(log) && log.url == url) {
        assert HasStored(a, url);
        EntriesAreAnswers(states, logs, k - 1, url);
      }
    }
  }

  /**
   A stream that found a cached body, is answered 304 and read to the end delivers byte for byte
   what is stored; read in part, it delivers a part.
   */
  lemma {:induction false} RevalidationDelivers(states: seq<map<string, Content>>, logs: seq<SessionLog>, i: nat)
    requires Run(states, logs) && i < |logs| && logs[i].code == 304 && logs[i].use && logs[i].known
    ensures var last := LastStored(logs, i, logs[i].url);
      && last.Some? && logs[i].out <= logs[last.value].got
      && (logs[i].ended ==> logs[i].out == logs[last.value].got)
  {
    assert StepAt(states, logs, i);
    EntriesAreAnswers(states, logs, i, logs[i].url);
  }

  /**
   What is stored is not the body that the caller has if and only if the answer is a 304 behind a
   line that says 200, or the caller has had as many bytes as were announced but not the whole body.
   In the first case nothing is stored.
   */
  lemma {:induction false} SpoilsExactly(log: SessionLog)
    requires Honest(log) && Stores(log)
    ensures Spoils(log) <==> log.code == 304 || log.out != log.body
    ensures log.code == 304 ==> log.got == []
    ensures log.code != 304 && Announced(log.lines) == |log.body| ==> Takes(log)
    ensures Takes(log) ==> log.got == log.body
  {
    HitsWithin(log.pieces, Announced(log.lines));
  }

  /**
   Transparency, exactly. When a body has been taken under the URL, a stream that found an entry, is
   answered 304 and read to the end delivers the body that was taken last if and only if what is
   stored is that body; and that is so when no later lifetime on the URL has spoilt it.
   */
  lemma {:induction false} RevalidationIsTransparent(states: seq<map<string, Content>>, logs: seq<SessionLog>, i: nat)
    requires Run(states, logs) && i < |logs|
    requires logs[i].code == 304 && logs[i].use && logs[i].known && logs[i].ended
    requires LastTaken(logs, i, logs[i].url).Some?
    ensures var url := logs[i].url; var taken, last := LastTaken(logs, i, url).value, LastStored(logs, i, url);
      && last.Some? && taken <= last.value && logs[taken].out == logs[taken].body
      && (logs[i].out == logs[taken].out <==> logs[last.value].got == logs[taken].out)
      && (taken == last.value <==> forall j | taken < j < i && logs[j].url == url :: !Spoils(logs[j]))
      && (taken == last.value ==> logs[i].out == logs[taken].out)
      && (taken < last.value && logs[last.value].code == 304 ==> logs[i].out == [])
  {
    RevalidationDelivers(states, logs, i);
    var url := logs[i].url;
    var taken, last := LastTaken(logs, i, url).value, LastStored(logs, i, url).value;
    HonestIn(states, logs, taken);
    HonestIn(states, logs, last);
    SpoilsExactly(logs[taken]);
    SpoilsExactly(logs[last]);
  }

  lemma {:induction false} HonestIn(states: seq<map<string, Content>>, logs: seq<SessionLog>, i: nat)
    requires Run(states, logs) && i < |logs|
    ensures Honest(logs[i])
  {
    assert StepAt(states, logs, i);
  }

  /**
   Transparency in runs where everything that is stored comes with the code 200 and has the length it
   announces: there nothing is ever spoilt.
   */
  lemma {:induction false} HonestServersAreTransparent(states: seq<map<string, Content>>, logs: seq<SessionLog>, i: nat)
    requires Run(states, logs) && i < |logs|
    requires forall log | log in logs && Stores(log) :: log.code == 200 && Announced(log.lines) == |log.body|
    requires logs[i].code == 304 && logs[i].use && logs[i].known
    ensures var last := LastTaken(logs, i, logs[i].url);
      && last.Some? && logs[last.value].code == 200 && logs[last.value].out == logs[last.value].body
      && logs[i].out <= logs[last.value].out
      && (logs[i].ended ==> logs[i].out == logs[last.value].out)
  {
    RevalidationDelivers(states, logs, i);
    forall j | 0 <= j < i && Stores(logs[j])
      ensures Takes(logs[j]) && logs[j].got == logs[j].body && logs[j].code == 200
    {
      assert logs[j] in logs;
      HonestIn(states, logs, j);
      SpoilsExactly(logs[j]);
    }
  }

  /**
   Revalidation any number of times. Once something is stored, lifetimes on the same URL that neither
   store something else nor break off a refresh leave it as it is, and each of them finds it.
   */
  lemma {:induction false} RevalidatedForever(states: seq<map<string, Content>>, logs: seq<SessionLog>, j: nat, k: nat)
    requires Run(states, logs) && j < k <= |logs|
    requires Stores(logs[j]) && !IsStuck(states[j], logs[j].url)
    requires forall i | j < i < k :: logs[i].url == logs[j].url && !Stores(logs[i]) && !Abandons(logs[i])
    ensures var url := logs[j].url; HasStored(states[k], url) && states[k][url] == Stored(logs[j].got)
    ensures forall i | j < i < k :: logs[i].known
    ensures forall i | j < i < k && logs[i].code == 304 && logs[i].use && logs[i].ended :: logs[i].out == logs[j].got
    decreases k
  {
    assert StepAt(states, logs, k - 1);
    if j < k - 1 {
      RevalidatedForever(states, logs, j, k - 1);
    }
  }

  // ---- Entries that are stuck ------------------------------------------------

  /**
   An aborted refresh: the entry stays in the state WRITE for good. No later lifetime finds it, so
   none is answered from it, and none can replace it.
   */
  lemma {:induction false} StuckForever(states: seq<map<string, Content>>, logs: seq<SessionLog>, i: nat, k: nat,
      url: string)
    requires Run(states, logs) && i <= k <= |logs| && IsStuck(states[i], url)
    ensures IsStuck(states[k], url)
    ensures forall n | i <= n < k && logs[n].url == url :: !logs[n].known
    decreases k
  {
    if i < k {
      StuckForever(states, logs, i, k - 1, url);
      assert StepAt(states, logs, k - 1);
    }
  }

  /**
   One lifetime sticks an entry if and only if it found the entry, with caching on, a line said 200,
   at least one body chunk came, and after no read the caller had exactly as many bytes as were
   announced (none, if nothing was).
   */
  lemma {:induction false} StuckByThis(a: map<string, Content>, log: SessionLog, b: map<string, Content>)
    requires SessionStep(a, log, b) && !IsStuck(a, log.url)
    ensures IsStuck(b, log.url) <==>
      log.known && log.use && Says(log.lines) && log.chunked && !Hits(log.pieces, Announced(log.lines))
  {
  }

  /** Over a run: an entry is stuck if and only if some lifetime has done that to it. */
  lemma {:induction false} StuckByAbort(states: seq<map<string, Content>>, logs: seq<SessionLog>, k: nat, url: string)
    requires Run(states, logs) && k <= |logs|
    ensures IsStuck(states[k], url) <==> exists i | 0 <= i < k :: logs[i].url == url && Abandons(logs[i])
    decreases k
  {
    if k > 0 {
      var log, a := logs[k - 1], states[k - 1];
      assert StepAt(states, logs, k - 1);
      StuckByAbort(states, logs, k - 1, url);
      if IsStuck(a, url) {
        StuckForever(states, logs, k - 1, k, url);
      } else if log.url == url {
        StuckByThis(a, log, states[k]);
      }
    }
  }

  // ---- Validators over runs ------------------------------------------------

  ghost predicate TagsAtStep(states: seq<map<string, Content>>, tags: seq<map<string, Tags>>, logs: seq<SessionLog>,
      i: nat) {
    && (i < |tags| && i < |states| ==> tags[i].Keys == states[i].Keys)
    && (i < |logs| && i < |states| && i + 1 < |tags| ==> TagStep(states[i], tags[i], logs[i], tags[i + 1]))
  }

  /** tags[i] is what validators the entries have before the lifetime logs[i]. */
  ghost predicate TagRun(states: seq<map<string, Content>>, tags: seq<map<string, Tags>>, logs: seq<SessionLog>) {
    |tags| == |states| == |logs| + 1 && tags[0] == map[] && forall i: nat :: TagsAtStep(states, tags, logs, i)
  }

  /**
   The validators make the round trip. After a lifetime that stored something,
     with an ETag line or a Last-Modified line,
   the next request for the URL carries the value of the line byte for byte, if and only if it is a
   quoted entity-tag without NUL, or a date without NUL.
   */
  lemma {:induction false} ValidatorsReturn(states: seq<map<string, Content>>, tags: seq<map<string, Tags>>,
      logs: seq<SessionLog>, k: nat)
    requires Run(states, logs) && TagRun(states, tags, logs) && k + 1 < |logs| && logs[k + 1].url == logs[k].url
    requires Stores(logs[k]) && !IsStuck(states[k], logs[k].url)
    ensures logs[k + 1].known
    ensures var etag := LastValue(logs[k].lines, EtagLine);
      etag.Some? ==> (logs[k + 1].sent.ifNoneMatch == etag <==> Quoted(etag.value) && '\0' !in etag.value)
    ensures var date := LastValue(logs[k].lines, LastModifiedLine);
      date.Some? ==> (logs[k + 1].sent.ifModifiedSince == date <==> '\0' !in date.value)
  {
    var log := logs[k];
    assert StepAt(states, logs, k) && TagsAtStep(states, tags, logs, k);
    assert StepAt(states, logs, k + 1) && TagsAtStep(states, tags, logs, k + 1);
    TagsAreLast(if log.known then tags[k][log.url] else NO_TAGS, log.lines);
  }

  /**
   Validators can run ahead of the body. Whatever a lifetime is answered, if it leaves the body it
   found in the cache, the header lines it brought leave their validators with it, and the next
   request asks for those.
   */
  lemma {:induction false} ValidatorsRunAhead(states: seq<map<string, Content>>, tags: seq<map<string, Tags>>,
      logs: seq<SessionLog>, k: nat)
    requires Run(states, logs) && TagRun(states, tags, logs) && k + 1 < |logs| && logs[k + 1].url == logs[k].url
    requires logs[k].known && !Stores(logs[k]) && !Abandons(logs[k])
    ensures HasStored(states[k], logs[k].url)
    ensures HasStored(states[k + 1], logs[k].url) && states[k + 1][logs[k].url] == states[k][logs[k].url]
    ensures logs[k].url in tags[k] && (forall line | line in logs[k].lines :: HeaderLine(line))
    ensures logs[k + 1].known && logs[k + 1].sent == Sent(TagsLeft(logs[k], tags[k][logs[k].url]))
  {
    var log := logs[k];
    assert StepAt(states, logs, k) && TagsAtStep(states, tags, logs, k);
    assert StepAt(states, logs, k + 1) && TagsAtStep(states, tags, logs, k + 1);
  }

  /** The lines that a lifetime brings for the URL. */
  function LinesOf(log: SessionLog, url: string): seq<string> {
    if log.url == url && log.use then log.lines else []
  }

  /** The lines that the lifetimes from i on, up to before k, bring for it. */
  function LinesOn(logs: seq<SessionLog>, i: nat, k: nat, url: string): seq<string>
    requires k <= |logs|
  {
    if k <= i then [] else LinesOn(logs, i, k - 1, url) + LinesOf(logs[k - 1], url)
  }

  /** The lifetime at i leaves the body under the URL, and brings its validators up to date. */
  ghost predicate Freshens(tags: seq<map<string, Tags>>, logs: seq<SessionLog>, i: nat, url: string) {
    && i < |logs| && i + 1 < |tags| && url in tags[i] && url in tags[i + 1]
    && (forall line | line in LinesOf(logs[i], url) :: HeaderLine(line))
    && tags[i + 1][url] == TagsAll(tags[i][url], LinesOf(logs[i], url))
  }

  lemma {:induction false} FreshensAt(states: seq<map<string, Content>>, tags: seq<map<string, Tags>>,
      logs: seq<SessionLog>, i: nat, url: string)
    requires Run(states, logs) && TagRun(states, tags, logs) && i < |logs|
    requires HasStored(states[i], url) && HasStored(states[i + 1], url) && (logs[i].url == url ==> !Stores(logs[i]))
    ensures Freshens(tags, logs, i, url)
  {
    assert StepAt(states, logs, i) && TagsAtStep(states, tags, logs, i) && TagsAtStep(states, tags, logs, i + 1);
  }

  /** While a body stays in the cache its validators are brought up to date by all lines that come. */
  lemma {:induction false} TagsSince(tags: seq<map<string, Tags>>, logs: seq<SessionLog>, j: nat, k: nat, url: string)
    requires j < k <= |logs| && k < |tags| && url in tags[j + 1] && forall i | j < i < k :: Freshens(tags, logs, i, url)
    ensures url in tags[k]
    ensures var later := LinesOn(logs, j + 1, k, url);
      && (forall line | line in later :: HeaderLine(line))
      && tags[k][url] == TagsAll(tags[j + 1][url], later)
    decreases k
  {
    if j + 1 < k {
      assert Freshens(tags, logs, k - 1, url);
      TagsSince(tags, logs, j, k - 1, url);
      var before, lines := LinesOn(logs, j + 1, k - 1, url), LinesOf(logs[k - 1], url);
      assert forall line | line in before + lines :: line in before || line in lines;
      TagsAllConcat(tags[j + 1][url], before, lines);
    }
  }

  /** The validators at k are those at j + 1 exactly if the lines in between repeat them. */
  ghost predicate CurrentIfUnmoved(tags: seq<map<string, Tags>>, logs: seq<SessionLog>, j: nat, k: nat, url: string) {
    && j < k <= |logs| && k < |tags| && url in tags[j + 1] && url in tags[k]
    && var later := LinesOn(logs, j + 1, k, url);
       && (forall line | line in later :: HeaderLine(line))
       && (tags[k][url] == tags[j + 1][url] <==> Unmoved(tags[j + 1][url], later))
  }

  /**
   The exact condition. The validators of a cached body are those it was stored with if and only if,
   of the header lines that later lifetimes on its URL have brought, the last entity-tag and the last
   date, where there are any, are the stored ones again.
   */
  lemma {:induction false} ValidatorsCurrent(states: seq<map<string, Content>>, tags: seq<map<string, Tags>>,
      logs: seq<SessionLog>, k: nat, url: string)
    requires Run(states, logs) && TagRun(states, tags, logs) && k <= |logs| && HasStored(states[k], url)
    ensures var last := LastStored(logs, k, url);
      && last.Some? && states[k][url] == Stored(logs[last.value].got)
      && CurrentIfUnmoved(tags, logs, last.value, k, url)
  {
    EntriesAreAnswers(states, logs, k, url);
    var j := LastStored(logs, k, url).value;
    assert TagsAtStep(states, tags, logs, j + 1) && HasStored(states[j + 1], url);
    forall i | j < i < k
      ensures Freshens(tags, logs, i, url)
    {
      assert HasStored(states[i], url) && HasStored(states[i + 1], url);
      FreshensAt(states, tags, logs, i, url);
    }
    TagsSince(tags, logs, j, k, url);
    UnmovedExactly(tags[j + 1][url], LinesOn(logs, j + 1, k, url));
  }

  // ---- Caching switched off ------------------------------------------------

  /**
   The switch comes after the request has been made up: the request for a cached document is
   conditional all the same, and a caller who reads to the end is given nothing if and only if the
   answer is 304, or brings no bytes.
   */
  lemma {:induction false} SwitchedOffGivesNothing(states: seq<map<string, Content>>, tags: seq<map<string, Tags>>,
      logs: seq<SessionLog>, i: nat)
    requires Run(states, logs) && TagRun(states, tags, logs) && i < |logs|
    requires logs[i].known && !logs[i].use && logs[i].ended
    ensures logs[i].url in tags[i] && logs[i].sent == Sent(tags[i][logs[i].url])
    ensures logs[i].out == [] <==> logs[i].code == 304 || logs[i].body == []
  {
    assert StepAt(states, logs, i) && TagsAtStep(states, tags, logs, i);
  }

  // ---- Objects that are lost ------------------------------------------------

  /** How many cache objects are lost: one for each 304 heard by a stream that had found nothing and stores nothing. */
  ghost function Lost(logs: seq<SessionLog>): nat {
    if logs == [] then 0 else Lost(logs[..|logs| - 1]) + if Leaks(logs[|logs| - 1]) then 1 else 0
  }

  /** Nothing is lost if and only if no stream that had found nothing heard of a 304, without storing something. */
  lemma {:induction false} NothingLost(logs: seq<SessionLog>)
    ensures Lost(logs) == 0 <==> forall log | log in logs :: !(!log.known && log.use && log.heard && !Stores(log))
  {
    if logs != [] {
      var n := |logs| - 1;
      NothingLost(logs[..n]);
      assert logs == logs[..n] + [logs[n]];
    }
  }

  /** Servers that answer 304 to conditional requests only make nobody lose anything. */
  lemma {:induction false} ConditionalLosesNothing(states: seq<map<string, Content>>, tags: seq<map<string, Tags>>,
      logs: seq<SessionLog>)
    requires Run(states, logs) && TagRun(states, tags, logs)
    requires forall log | log in logs && log.code == 304 :: log.sent != Conditional(None, None)
    ensures Lost(logs) == 0
  {
    NothingLost(logs);
    forall log | log in logs
      ensures !(!log.known && log.use && log.heard && !Stores(log))
    {
      var i :| 0 <= i < |logs| && logs[i] == log;
      assert StepAt(states, logs, i) && TagsAtStep(states, tags, logs, i);
    }
  }

  /** One 304 to a stream that had found nothing, read to its end, without a line that says 200, is enough. */
  lemma {:induction false} UnsolicitedLoses(states: seq<map<string, Content>>, logs: seq<SessionLog>, i: nat)
    requires Run(states, logs) && i < |logs|
    requires logs[i].code == 304 && logs[i].use && !logs[i].known && logs[i].ended && !Stores(logs[i])
    ensures 0 < Lost(logs)
  {
    assert StepAt(states, logs, i);
    assert logs[i] in logs;
    NothingLost(logs);
  }

  /** What a lifetime is up against: its URL and caching switch, how it is answered, how it is read. */
  datatype Job = Job(url: string, use: bool, script: seq<Burst>, resp: Response, plan: Plan)

  ghost predicate Playable(job: Job) {
    Plays(job.script, job.resp) && Sensible(job.plan)
  }

  ghost predicate AllFollow(logs: seq<SessionLog>, jobs: seq<Job>) {
    |logs| <= |jobs| && forall i | 0 <= i < |logs| :: Meets(logs[i], jobs[i])
  }

  ghost predicate Meets(log: SessionLog, job: Job) {
    Follows(log, job.url, job.use, job.script, job.resp, job.plan)
  }

  lemma {:induction false} FollowSnoc(logs: seq<SessionLog>, logs': seq<SessionLog>, jobs: seq<Job>)
    requires AllFollow(logs, jobs) && logs <= logs' && |logs'| == |logs| + 1 <= |jobs|
      && Meets(logs'[|logs|], jobs[|logs|])
    ensures AllFollow(logs', jobs)
  {
  }

  /** One more lifetime. */
  lemma {:induction false} RunSnoc(states: seq<map<string, Content>>, tags: seq<map<string, Tags>>,
      logs: seq<SessionLog>, log: SessionLog, b: map<string, Content>, tb: map<string, Tags>)
    requires Run(states, logs) && SessionStep(states[|logs|], log, b)
    requires TagRun(states, tags, logs) && TagStep(states[|logs|], tags[|logs|], log, tb) && tb.Keys == b.Keys
    ensures Run(states + [b], logs + [log]) && TagRun(states + [b], tags + [tb], logs + [log])
    ensures (states + [b])[|logs + [log]|] == b && (tags + [tb])[|logs + [log]|] == tb
    ensures Lost(logs + [log]) == Lost(logs) + if Leaks(log) then 1 else 0
  {
    assert (logs + [log])[..|logs|] == logs;
    forall i: nat
      ensures StepAt(states + [b], logs + [log], i) && TagsAtStep(states + [b], tags + [tb], logs + [log], i)
    {
      assert StepAt(states, logs, i) && TagsAtStep(states, tags, logs, i) && TagsAtStep(states, tags, logs, i + 1);
    }
  }

  /** What is cached, over a run. */
  datatype History = History(states: seq<map<string, Content>>, tags: seq<map<string, Tags>>)

  /** The handler after a run. */
  ghost predicate Recorded(handler: DataStreamHandler, past: History, logs: seq<SessionLog>)
    reads handler, handler.Items()
  {
    && handler.Valid() && Healthy(handler.HttpCache)
    && Run(past.states, logs) && past.states[|logs|] == Contents(Listing(handler.HttpCache))
    && TagRun(past.states, past.tags, logs) && past.tags[|logs|] == Validators(Listing(handler.HttpCache))
    && |handler.Loose()| == Lost(logs)
  }

  method NextSession(handler: DataStreamHandler, jobs: seq<Job>, ghost past: History, logs: seq<SessionLog>)
    returns (ghost past': History, logs': seq<SessionLog>)
    requires Recorded(handler, past, logs) && AllFollow(logs, jobs) && |logs| < |jobs| && Playable(jobs[|logs|])
    modifies handler, handler.made
    ensures Recorded(handler, past', logs') && handler.OnlyNew()
    ensures |logs'| == |logs| + 1 && AllFollow(logs', jobs)
  {
    var job := jobs[|logs|];
    var log := Session(handler, job.url, job.use, job.script, job.resp, job.plan);
    ghost var b, tb := Contents(Listing(handler.HttpCache)), Validators(Listing(handler.HttpCache));
    SameKeys(Listing(handler.HttpCache));
    RunSnoc(past.states, past.tags, logs, log, b, tb);
    logs', past' := logs + [log], History(past.states + [b], past.tags + [tb]);
    FollowSnoc(logs, logs', jobs);
  }

  /** The lifetimes one after the other. */
  method RunJobs(handler: DataStreamHandler, jobs: seq<Job>) returns (logs: seq<SessionLog>, ghost past: History)
    requires handler.Valid() && handler.HttpCache == [] && handler.Loose() == {} && handler.made == {}
    requires forall job | job in jobs :: Playable(job)
    modifies handler
    ensures Recorded(handler, past, logs) && |logs| == |jobs| && AllFollow(logs, jobs)
  {
    logs, past := [], History([map[]], [map[]]);
    for k := 0 to |jobs|
      invariant Recorded(handler, past, logs) && handler.OnlyNew()
      invariant |logs| == k && AllFollow(logs, jobs)
    {
      assert Playable(jobs[k]);
      past, logs := NextSession(handler, jobs, past, logs);
    }
  }

  /**
   Any series of lifetimes on a new handler is a run; at its end, after ~DataStreamHandler, exactly
   the lost objects are left over.
   */
  method RunSessions(zlib: Zlib, jobs: seq<Job>) returns (logs: seq<SessionLog>, ghost past: History,
      ghost left: set<CacheObject>)
    requires forall job | job in jobs :: Playable(job)
    ensures Run(past.states, logs) && TagRun(past.states, past.tags, logs) && |left| == Lost(logs)
    ensures |logs| == |jobs| && AllFollow(logs, jobs)
  {
    var handler := new DataStreamHandler(zlib);
    logs, past := RunJobs(handler, jobs);
    handler.Clear();
    left := handler.live;
    assert handler.Items() == {} && left == handler.Loose();
  }
}
