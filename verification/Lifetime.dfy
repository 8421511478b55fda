/**
 The lifetime of one stream as a step of the cache: newStream, the caller's reads, ~HttpStream. What
 is cached is a map from URLs to contents; compression, buffers and objects are gone from it.
 */
module Lifetimes {
  import opened Bytes
  import opened CacheObjects
  import opened CacheIndex
  import opened HttpHeaders
  import opened HttpStreams
  import opened HttpSessions

  // ---- What is cached under which URL ------------------------------------------------

  /** What is cached under a URL, and its validators. */
  datatype Cached = Cached(url: string, content: Content, tags: Tags)

  function Contents(rows: seq<Cached>): map<string, Content> {
    if rows == [] then map[] else
      var n := |rows| - 1;
      Contents(rows[..n])[rows[n].url := rows[n].content]
  }

  function Validators(rows: seq<Cached>): map<string, Tags> {
    if rows == [] then map[] else
      var n := |rows| - 1;
      Validators(rows[..n])[rows[n].url := rows[n].tags]
  }

  predicate Distinct(rows: seq<Cached>) {
    forall i, j | 0 <= i < j < |rows| :: rows[i].url != rows[j].url
  }

  /** The row of a URL that is cached. */
  ghost function Where(rows: seq<Cached>, url: string): (i: nat)
    requires url in Contents(rows)
    ensures i < |rows| && url in Validators(rows) && rows[i] == Cached(url, Contents(rows)[url], Validators(rows)[url])
  {
    var n := |rows| - 1;
    if rows[n].url == url then n else Where(rows[..n], url)
  }

  lemma {:induction false} ContentsAt(rows: seq<Cached>, i: nat)
    requires Distinct(rows) && i < |rows|
    ensures rows[i].url in Contents(rows) && Contents(rows)[rows[i].url] == rows[i].content
    ensures rows[i].url in Validators(rows) && Validators(rows)[rows[i].url] == rows[i].tags
    decreases |rows|
  {
    var n := |rows| - 1;
    if i < n {
      ContentsAt(rows[..n], i);
      assert rows[..n][i] == rows[i];
    }
  }

  lemma {:induction false} SameKeys(rows: seq<Cached>)
    ensures Validators(rows).Keys == Contents(rows).Keys
  {
    if rows != [] {
      SameKeys(rows[..|rows| - 1]);
    }
  }

  ghost predicate Lists(entries: seq<Entry>, rows: seq<Cached>) {
    |rows| == |entries| && forall i | 0 <= i < |entries| :: rows[i].url == entries[i].url
  }

  lemma {:induction false} RowsDistinct(entries: seq<Entry>, rows: seq<Cached>)
    requires Ordered(entries) && Lists(entries, rows)
    ensures Distinct(rows)
  {
    forall i, j | 0 <= i < j < |rows|
      ensures rows[i].url != rows[j].url
    {
      LessTotal(entries[i].url, entries[i].url);
      assert InOrder(entries, i, j);
    }
  }

  ghost function Listing(entries: seq<Entry>): (rows: seq<Cached>)
    reads set e | e in entries :: e.item
    ensures Lists(entries, rows)
    ensures forall i | 0 <= i < |entries| ::
      rows[i].content == entries[i].item.View() && rows[i].tags == TagsOf(entries[i].item.headers)
  {
    if entries == [] then [] else
      var n := |entries| - 1;
      var e := entries[n];
      Listing(entries[..n]) + [Cached(e.url, e.item.View(), TagsOf(e.item.headers))]
  }

  /** Between streams every cached object is finished, or stuck in an abandoned refresh. */
  ghost predicate Steady(item: CacheObject, content: Content)
    reads item
  {
    item.Valid() && item.View() == content && (content.Stored? || content.Writing?)
  }

  ghost predicate Holds(item: CacheObject, row: Cached)
    reads item
  {
    Steady(item, row.content) && TagsOf(item.headers) == row.tags
  }

  /** `others` are as `rows` says. */
  ghost predicate Kept(entries: seq<Entry>, others: set<CacheObject>, rows: seq<Cached>)
    reads others
  {
    && Lists(entries, rows)
    && forall i | 0 <= i < |entries| && entries[i].item in others :: Holds(entries[i].item, rows[i])
  }

  ghost predicate Healthy(entries: seq<Entry>)
    reads set e | e in entries :: e.item
  {
    forall e | e in entries :: Steady(e.item, e.item.View())
  }

  lemma {:induction false} KeptAtFirst(entries: seq<Entry>)
    requires Healthy(entries)
    ensures Kept(entries, set e | e in entries :: e.item, Listing(entries))
  {
    forall i | 0 <= i < |entries|
      ensures Holds(entries[i].item, Listing(entries)[i])
    {
      assert entries[i] in entries;
    }
  }

  // ---- A stream's cache object in the index ------------------------------------------------

  predicate HasStored(a: map<string, Content>, url: string) {
    url in a && a[url].Stored?
  }

  /** The cache object of a stream is the one under the URL, if that is finished, or new. */
  ghost predicate Placed(entries: seq<Entry>, others: set<CacheObject>, url: string, cache: CacheObject, known: bool,
      entry: Content, rows: seq<Cached>) {
    && cache !in others && (forall e | e in entries :: e.item in others || e == Entry(url, cache))
    && known == HasStored(Contents(rows), url) && (known <==> Entry(url, cache) in entries)
    && entry == (if known then Contents(rows)[url] else Nothing)
  }

  /** The validators that a stream starts with. */
  function TagsAt(known: bool, url: string, rows: seq<Cached>): Tags {
    if known && url in Validators(rows) then Validators(rows)[url] else NO_TAGS
  }

  /** The index around one stream: the other objects, what is cached, and what nobody owns any more. */
  datatype Slot = Slot(others: set<CacheObject>, known: bool, rows: seq<Cached>, lost: set<CacheObject>)

  ghost predicate Attached(handler: DataStreamHandler, url: string, cache: CacheObject, entry: Content, slot: Slot)
    reads handler, slot.others
  {
    && handler.Valid() && Kept(handler.HttpCache, slot.others, slot.rows)
    && cache in handler.live && cache !in slot.lost
    && handler.Loose() == (if slot.known then slot.lost else slot.lost + {cache})
    && Placed(handler.HttpCache, slot.others, url, cache, slot.known, entry, slot.rows)
  }

  lemma {:induction false} KeptFewer(entries: seq<Entry>, items: set<CacheObject>, others: set<CacheObject>,
      rows: seq<Cached>)
    requires Kept(entries, items, rows) && others <= items
    ensures Kept(entries, others, rows)
  {
  }

  lemma {:induction false} KeptOne(entries: seq<Entry>, items: set<CacheObject>, i: nat, rows: seq<Cached>)
    requires Kept(entries, items, rows) && Ordered(entries) && i < |entries| && entries[i].item in items
    ensures entries[i].url in Contents(rows) && Steady(entries[i].item, Contents(rows)[entries[i].url])
    ensures entries[i].url in Validators(rows) && TagsOf(entries[i].item.headers) == Validators(rows)[entries[i].url]
  {
    RowsDistinct(entries, rows);
    ContentsAt(rows, i);
  }

  /** A finished object under the URL is found. */
  lemma {:induction false} KnownPlaced(entries: seq<Entry>, items: set<CacheObject>, url: string, cache: CacheObject,
      entry: Content, rows: seq<Cached>)
    requires Ordered(entries) && items == set e | e in entries :: e.item
    requires Entry(url, cache) in entries && url in Contents(rows) && Contents(rows)[url] == entry && entry.Stored?
    ensures Placed(entries, items - {cache}, url, cache, true, entry, rows)
  {
    Same(entries, Entry(url, cache));
  }

  /** When nothing is found, nothing finished is cached under the URL. */
  lemma {:induction false} NothingKnown(entries: seq<Entry>, items: set<CacheObject>, url: string, rows: seq<Cached>)
    requires Kept(entries, items, rows) && items == set e | e in entries :: e.item
    requires forall e | e in entries && e.url == url :: e.item.IsBusy()
    ensures !HasStored(Contents(rows), url)
  {
    if url in Contents(rows) {
      var i := Where(rows, url);
      assert entries[i] in entries && Holds(entries[i].item, rows[i]);
    }
  }

  /** What is found is finished, and is as the listing says. */
  lemma {:induction false} FoundPlaced(entries: seq<Entry>, items: set<CacheObject>, url: string, cache: CacheObject,
      rows: seq<Cached>)
    requires Kept(entries, items, rows) && Ordered(entries) && items == set e | e in entries :: e.item
    requires Entry(url, cache) in entries && !cache.IsBusy()
    ensures cache in items && cache.Valid() && cache.View().Stored?
    ensures Kept(entries, items - {cache}, rows) && Placed(entries, items - {cache}, url, cache, true, cache.View(),
      rows)
    ensures TagsOf(cache.headers) == TagsAt(true, url, rows)
  {
    var i :| 0 <= i < |entries| && entries[i] == Entry(url, cache);
    KeptOne(entries, items, i, rows);
    KeptFewer(entries, items, items - {cache}, rows);
    KnownPlaced(entries, items, url, cache, cache.View(), rows);
  }

  /** The lookup of newStream: a finished object if there is one, else a new one. */
  method FindOrAllocate(handler: DataStreamHandler, url: string, ghost rows: seq<Cached>)
    returns (cache: CacheObject, known: bool, ghost slot: Slot)
    requires handler.Valid() && Kept(handler.HttpCache, handler.Items(), rows)
    modifies handler`live, handler`made
    ensures Attached(handler, url, cache, cache.View(), slot)
    ensures slot.known == known && slot.rows == rows && slot.lost == old(handler.Loose())
    ensures cache.Valid() && (cache.View().Nothing? || cache.View().Stored?) && (known || fresh(cache))
    ensures TagsOf(cache.headers) == TagsAt(known, url, rows)
    ensures handler.OnlyNew() && cache in handler.made && (known ==> handler.made == old(handler.made))
  {
    var found := handler.GetCacheObject(url);
    known := found.Some?;
    ghost var items, lost := handler.Items(), handler.Loose();
    if known {
      cache := found.value;
      slot := Slot(items - {cache}, true, rows, lost);
      FoundPlaced(handler.HttpCache, items, url, cache, rows);
    } else {
      slot := Slot(items, false, rows, lost);
      NothingKnown(handler.HttpCache, items, url, rows);
      cache := handler.Allocate(url);
    }
  }

  /** newStream with useCache() set by the parser, and curl_multi_add_handle. */
  method OpenStream(cache: CacheObject, known: bool, url: string, useCache: bool, script: seq<Burst>,
      ghost resp: Response)
    returns (s: HttpStream, m: Multi)
    requires cache.Valid() && (cache.View().Nothing? || cache.View().Stored?) && Plays(script, resp)
    ensures fresh(s) && fresh(m) && s.sURL == url && s.bDeleteCache == !known && s.bUseCache == useCache
    ensures s.cacheObject == cache && s.entry == cache.View() && s.fBytesToRead == 0 && m.script == script
    ensures s.entryTags == TagsOf(cache.headers)
    ensures s.request == if known then Sent(s.entryTags) else Conditional(None, None)
    ensures Alive(s, m, script, resp, useCache) && Live(script, m.script, resp, useCache, s.View(), [], false)
    ensures !s.bTransferFinished
  {
    PlaysScripted(script, resp);
    s := new HttpStream(url, cache, !known);
    s.UseCache(useCache);
    m := new Multi([s], script);
    LiveAtFirst(script, resp, s.View());
    StreamSound(s);
  }

  /** newStream, beside the index. */
  method OpenAttached(cache: CacheObject, known: bool, url: string, useCache: bool, script: seq<Burst>,
      ghost resp: Response, ghost handler: DataStreamHandler, ghost slot: Slot)
    returns (s: HttpStream, m: Multi)
    requires cache.Valid() && (cache.View().Nothing? || cache.View().Stored?) && Plays(script, resp)
    requires Attached(handler, url, cache, cache.View(), slot) && slot.known == known
    ensures fresh(s) && fresh(m) && s.sURL == url && s.bDeleteCache == !known && s.bUseCache == useCache
    ensures s.cacheObject == cache && s.entry == cache.View() && s.fBytesToRead == 0 && m.script == script
    ensures s.entryTags == TagsOf(cache.headers)
    ensures s.request == if known then Sent(s.entryTags) else Conditional(None, None)
    ensures Alive(s, m, script, resp, useCache) && Live(script, m.script, resp, useCache, s.View(), [], false)
    ensures !s.bTransferFinished
    ensures Attached(handler, url, cache, s.entry, slot)
    ensures handler.made == old(handler.made)
  {
    s, m := OpenStream(cache, known, url, useCache, script, resp);
  }

  /** The reads, while the index stands still. */
  method DrainAttached(s: HttpStream, m: Multi, plan: Plan, ghost script: seq<Burst>, ghost resp: Response,
      ghost use: bool, ghost handler: DataStreamHandler, ghost slot: Slot)
    returns (g: Given)
    requires Plays(script, resp) && Alive(s, m, script, resp, use) && s.fBytesToRead == 0
    requires Live(script, m.script, resp, use, s.View(), [], false) && !s.bTransferFinished
    requires Sensible(plan)
    requires Attached(handler, s.sURL, s.cacheObject, s.entry, slot)
    modifies m`script, m`running, s, s.cacheObject
    ensures Attached(handler, s.sURL, s.cacheObject, s.entry, slot)
    ensures Under(s, m, script, resp, use, g) && Paced(g, plan)
  {
    g := Drain(s, m, plan, script, resp, use);
  }

  // ---- ~HttpStream ------------------------------------------------

  /** Whether ~HttpStream stores the object, keeps it, or drops it. */
  datatype Fate = Store | Keep | Drop

  function FateOf(v: Snap): Fate {
    if v.st.store && v.finished && v.use then Store
    else if v.use && v.fromCache then Keep
    else Drop
  }

  predicate IsStuck(a: map<string, Content>, url: string) {
    url in a && a[url].Writing?
  }

  /** The entries once the object has been added: nothing else is new, and entries in use stay. */
  ghost predicate Added(entries: seq<Entry>, rows: seq<Cached>, url: string, cache: CacheObject, after: seq<Entry>)
    requires |rows| == |entries|
  {
    && Entry(url, cache) in after
    && (forall e | e in after :: e == Entry(url, cache) || (e in entries && e.url != url))
    && (forall i | 0 <= i < |entries| && entries[i].url != url && rows[i].content.Writing? :: entries[i] in after)
  }

  /** Only an object in use under the URL keeps the new one out. */
  lemma {:induction false} OccupiedMeansStuck(handler: DataStreamHandler, url: string, cache: CacheObject,
      entry: Content, slot: Slot)
    requires Attached(handler, url, cache, entry, slot)
    ensures handler.Occupied(url, cache) <==> IsStuck(Contents(slot.rows), url)
  {
    var entries, rows := handler.HttpCache, slot.rows;
    RowsDistinct(entries, rows);
    if handler.Occupied(url, cache) {
      var e :| e in entries && e.url == url && e.item != cache && e.item.IsBusy();
      var i :| 0 <= i < |entries| && entries[i] == e;
      ContentsAt(rows, i);
      assert Holds(entries[i].item, rows[i]);
    }
    if IsStuck(Contents(slot.rows), url) {
      var i := Where(rows, url);
      assert entries[i] in entries && entries[i].item in slot.others && Holds(entries[i].item, rows[i]);
    }
  }

  lemma {:induction false} BusyStays(entries: seq<Entry>, url: string, cache: CacheObject, entry: Content, slot: Slot,
      i: nat)
    requires Kept(entries, slot.others, slot.rows) && Placed(entries, slot.others, url, cache, slot.known, entry,
      slot.rows)
    requires i < |entries| && entries[i].url != url && slot.rows[i].content.Writing?
    ensures entries[i] in entries && entries[i].item.IsBusy()
  {
    assert entries[i] in entries && entries[i].item in slot.others && Holds(entries[i].item, slot.rows[i]);
  }

  /** addCacheObject on behalf of the stream. */
  method AddAttached(handler: DataStreamHandler, url: string, cache: CacheObject, ghost entry: Content,
      ghost slot: Slot)
    requires Attached(handler, url, cache, entry, slot)
    modifies handler`HttpCache, handler`live
    ensures handler.Valid() && handler.Loose() == slot.lost
    ensures if IsStuck(Contents(slot.rows), url) then handler.HttpCache == old(handler.HttpCache)
            else Added(old(handler.HttpCache), slot.rows, url, cache, handler.HttpCache)
    ensures handler.made == old(handler.made)
  {
    ghost var entries := handler.HttpCache;
    OccupiedMeansStuck(handler, url, cache, entry, slot);
    forall i | 0 <= i < |entries| && entries[i].url != url && slot.rows[i].content.Writing?
      ensures entries[i] in entries && entries[i].item.IsBusy()
    {
      BusyStays(entries, url, cache, entry, slot, i);
    }
    var _ := handler.AddCacheObject(url, cache);
  }

  /** The end of a complete 200: the object is finished and handed to the index. */
  method FinishObject(s: HttpStream)
    requires s.cacheObject.Valid()
    modifies s.cacheObject
    ensures s.cacheObject.Valid() && s.cacheObject.View() == AfterWrite(old(s.cacheObject.View()), None)
    ensures TagsOf(s.cacheObject.headers) == old(TagsOf(s.cacheObject.headers))
  {
    var _ := s.cacheObject.WriteBytes(None);
    s.cacheObject.SetContentLength(s.fTotalBytesRead);
    s.cacheObject.ResetState();
  }

  /** ~HttpStream after a complete 200. */
  method StoreObject(s: HttpStream, handler: DataStreamHandler, ghost slot: Slot)
    requires Attached(handler, s.sURL, s.cacheObject, s.entry, slot) && s.cacheObject.Valid()
    modifies handler`HttpCache, handler`live, s.cacheObject
    ensures handler.Valid() && s.cacheObject.Valid()
      && s.cacheObject.View() == AfterWrite(old(s.cacheObject.View()), None)
    ensures TagsOf(s.cacheObject.headers) == old(TagsOf(s.cacheObject.headers)) && handler.Loose() == slot.lost
    ensures if !IsStuck(Contents(slot.rows), s.sURL)
            then Added(old(handler.HttpCache), slot.rows, s.sURL, s.cacheObject, handler.HttpCache)
            else handler.HttpCache == old(handler.HttpCache)
    ensures Kept(old(handler.HttpCache), slot.others, slot.rows)
    ensures handler.made == old(handler.made)
  {
    FinishObject(s);
    AddAttached(handler, s.sURL, s.cacheObject, s.entry, slot);
  }

  /** ~HttpStream */
  method Destroy(s: HttpStream, handler: DataStreamHandler, ghost slot: Slot) returns (fate: Fate)
    requires Attached(handler, s.sURL, s.cacheObject, s.entry, slot)
    requires s.cacheObject.Valid() && s.bDeleteCache == !slot.known
    modifies handler`HttpCache, handler`live, s.cacheObject
    ensures handler.Valid() && s.cacheObject.Valid() && fate == FateOf(old(s.View()))
    ensures s.cacheObject.View() == match fate
      case Store => AfterWrite(old(s.cacheObject.View()), None)
      case Keep => AfterReset(old(s.cacheObject.View()))
      case Drop => old(s.cacheObject.View())
    ensures s.cacheObject !in slot.lost && TagsOf(s.cacheObject.headers) == old(TagsOf(s.cacheObject.headers))
    ensures handler.Loose() == if slot.known || fate != Keep then slot.lost else slot.lost + {s.cacheObject}
    ensures if fate == Store && !IsStuck(Contents(slot.rows), s.sURL)
            then Added(old(handler.HttpCache), slot.rows, s.sURL, s.cacheObject, handler.HttpCache)
            else handler.HttpCache == old(handler.HttpCache)
    ensures Kept(old(handler.HttpCache), slot.others, slot.rows)
    ensures handler.made == old(handler.made)
  {
    fate := Drop;
    if s.bStoreCache && s.bTransferFinished && s.bUseCache {
      fate := Store;
      StoreObject(s, handler, slot);
    } else if s.bUseCache && s.bStreamFromCache {
      fate := Keep;
      s.cacheObject.ResetState();
    } else if s.bDeleteCache {
      handler.Delete(s.cacheObject);
    }
  }

  // ---- The step of the cache ------------------------------------------------

  /** What a store makes of the cache: the new body goes in, and finished entries may go. */
  ghost predicate StoredIn(a: map<string, Content>, url: string, body: seq<byte>, b: map<string, Content>) {
    && url in b && b[url] == Stored(body)
    && (forall w | w in b && w != url :: w in a && b[w] == a[w])
    && (forall w | w in a && w != url && a[w].Writing? :: w in b)
  }

  /** How a lifetime leaves the cache, by what becomes of the object; `got` is what came for it. */
  ghost predicate Settled(a: map<string, Content>, url: string, known: bool, fate: Fate, began: bool, got: seq<byte>,
      b: map<string, Content>) {
    match fate
    case Store => if IsStuck(a, url) then b == a else StoredIn(a, url, got, b)
    case Keep => b == a
    case Drop =>
      && b.Keys == a.Keys && (forall w | w in b && w != url :: b[w] == a[w])
      && (url in a ==> b[url] == if known && began then Writing(got) else a[url])
  }

  /** Validators change for this URL at most: they become `tags` if the cached object is the stream's. */
  ghost predicate Retags(a: map<string, Tags>, url: string, mine: bool, tags: Tags, b: map<string, Tags>) {
    && (forall w | w in b && (w != url || !mine) :: w in a && b[w] == a[w])
    && (mine && url in b ==> b[url] == tags)
  }

  /** Two listings agree on what they list of the other objects. */
  ghost predicate Agree(entries: seq<Entry>, rows: seq<Cached>, after: seq<Entry>, rows': seq<Cached>,
      others: set<CacheObject>) {
    && Lists(entries, rows) && Lists(after, rows')
    && forall i, j | 0 <= i < |entries| && 0 <= j < |after| && entries[i] == after[j] && after[j].item in others ::
         rows[i] == rows'[j]
  }

  lemma {:induction false} ListingsAgree(entries: seq<Entry>, rows: seq<Cached>, after: seq<Entry>,
      others: set<CacheObject>)
    requires Kept(entries, others, rows)
    ensures Agree(entries, rows, after, Listing(after), others)
  {
    var rows' := Listing(after);
    forall i, j | 0 <= i < |entries| && 0 <= j < |after| && entries[i] == after[j] && after[j].item in others
      ensures rows[i] == rows'[j]
    {
      assert Holds(entries[i].item, rows[i]);
    }
  }

  /** What is cached after the object has been added. */
  lemma {:induction false} AddedStores(entries: seq<Entry>, rows: seq<Cached>, after: seq<Entry>, rows': seq<Cached>,
      others: set<CacheObject>, url: string, cache: CacheObject, body: seq<byte>, tags: Tags)
    requires Ordered(entries) && Ordered(after) && Agree(entries, rows, after, rows', others)
    requires forall e | e in entries :: e.item in others || e == Entry(url, cache)
    requires Added(entries, rows, url, cache, after)
    requires forall j | 0 <= j < |after| && after[j] == Entry(url, cache) ::
      rows'[j].content == Stored(body) && rows'[j].tags == tags
    ensures StoredIn(Contents(rows), url, body, Contents(rows'))
    ensures Retags(Validators(rows), url, true, tags, Validators(rows'))
  {
    var a, b := Contents(rows), Contents(rows');
    RowsDistinct(entries, rows);
    RowsDistinct(after, rows');
    SameKeys(rows');
    var k :| 0 <= k < |after| && after[k] == Entry(url, cache);
    ContentsAt(rows', k);
    forall w | w in b && w != url
      ensures w in a && b[w] == a[w]
      ensures w in Validators(rows) && w in Validators(rows') && Validators(rows')[w] == Validators(rows)[w]
    {
      var j := Where(rows', w);
      assert after[j] in after;
      var i :| 0 <= i < |entries| && entries[i] == after[j];
      assert entries[i] in entries;
      ContentsAt(rows, i);
    }
    forall w | w in a && w != url && a[w].Writing?
      ensures w in b
    {
      var i := Where(rows, w);
      assert entries[i] in after;
      var j :| 0 <= j < |after| && after[j] == entries[i];
      ContentsAt(rows', j);
    }
  }

  /** Without a store only the content of the object itself can have changed. */
  lemma {:induction false} UnaddedKeeps(entries: seq<Entry>, rows: seq<Cached>, rows': seq<Cached>,
      others: set<CacheObject>, url: string, cache: CacheObject, now: Content, tags: Tags)
    requires Ordered(entries) && Agree(entries, rows, entries, rows', others)
    requires forall e | e in entries :: e.item in others || e == Entry(url, cache)
    requires forall j | 0 <= j < |entries| && entries[j].item == cache ::
      rows'[j].content == now && rows'[j].tags == tags
    ensures var a, b := Contents(rows), Contents(rows');
      && b.Keys == a.Keys && (forall w | w in b && (w != url || Entry(url, cache) !in entries) :: b[w] == a[w])
      && (Entry(url, cache) in entries ==> url in b && b[url] == now)
    ensures Retags(Validators(rows), url, Entry(url, cache) in entries, tags, Validators(rows'))
  {
    var a, b := Contents(rows), Contents(rows');
    RowsDistinct(entries, rows);
    RowsDistinct(entries, rows');
    SameKeys(rows');
    forall i | 0 <= i < |entries|
      ensures entries[i].url in a && entries[i].url in b && a[entries[i].url] == rows[i].content
        && b[entries[i].url] == rows'[i].content
      ensures entries[i].url in Validators(rows) && Validators(rows)[entries[i].url] == rows[i].tags
      ensures entries[i].url in Validators(rows') && Validators(rows')[entries[i].url] == rows'[i].tags
      ensures entries[i] in entries
    {
      ContentsAt(rows, i);
      ContentsAt(rows', i);
    }
    forall w
      ensures w in b <==> w in a
      ensures w in b && (w != url || Entry(url, cache) !in entries) ==> b[w] == a[w]
      ensures w in b && (w != url || Entry(url, cache) !in entries) ==>
        w in Validators(rows) && w in Validators(rows') && Validators(rows')[w] == Validators(rows)[w]
    {
      if w in a {
        var i := Where(rows, w);
        assert entries[i].url in b;
      }
      if w in b {
        var i := Where(rows', w);
        assert entries[i].url in a && entries[i] in entries;
      }
    }
  }

  /**
   What becomes of the cache object when the stream goes: whatever came is what it holds, be it
   finished or not; that is nothing if only a line said 200.
   */
  lemma {:induction false} FateFits(script: seq<Burst>, rest: seq<Burst>, resp: Response, use: bool, v: Snap)
    requires Plays(script, resp) && Core(script, rest, resp, use, v) && Sound(v)
    requires v.finished ==> HeardOut(script, rest, resp)
    ensures v.use == use
    ensures FateOf(v) == Store ==> use && AfterWrite(v.view, None) == Stored(v.received)
    ensures FateOf(v) == Keep ==> use && resp.code == 304 && AfterReset(v.view) == v.entry
    ensures FateOf(v) == Drop ==> v.view == if v.st.began then Writing(v.received) else v.entry
    ensures v.st.began <==> use && Says(resp.lines) && Chunked(script, rest, resp)
  {
    SyncFits(script, rest, resp, use, v);
  }

  /** The index and the cache object right after the destructor. */
  ghost predicate Gone(entries: seq<Entry>, url: string, cache: CacheObject, entry: Content, slot: Slot, fate: Fate,
      began: bool, got: seq<byte>, after: seq<Entry>)
    reads slot.others, cache
  {
    && Kept(entries, slot.others, slot.rows) && Ordered(entries) && Ordered(after) && cache.Valid()
    && (if fate == Store && !IsStuck(Contents(slot.rows), url) then Added(entries, slot.rows, url, cache,
      after) else after == entries)
    && match fate
       case Store => cache.View() == Stored(got)
       case Keep => cache.View() == entry
       case Drop => cache.View() == if began then Writing(got) else entry
  }

  lemma {:induction false} UnaddedSettles(a: map<string, Content>, b: map<string, Content>, url: string, now: Content,
      known: bool, entry: Content, fate: Fate, began: bool, got: seq<byte>)
    requires b.Keys == a.Keys && (forall w | w in b && (w != url || !known) :: b[w] == a[w])
      && (known ==> url in b && b[url] == now)
    requires known == HasStored(a, url) && entry == (if known then a[url] else Nothing)
    requires match fate
             case Store => IsStuck(a, url)
             case Keep => now == entry
             case Drop => now == if began then Writing(got) else entry
    ensures Settled(a, url, known, fate, began, got, b)
  {
  }

  lemma {:induction false} GoneSettles(entries: seq<Entry>, url: string, cache: CacheObject, entry: Content, slot: Slot,
      fate: Fate, began: bool, got: seq<byte>, after: seq<Entry>)
    requires Gone(entries, url, cache, entry, slot, fate, began, got, after)
    requires Placed(entries, slot.others, url, cache, slot.known, entry, slot.rows)
    ensures Settled(Contents(slot.rows), url, slot.known, fate, began, got, Contents(Listing(after)))
    ensures Retags(Validators(slot.rows), url, slot.known || (fate == Store
      && !IsStuck(Contents(slot.rows), url)), TagsOf(cache.headers),
                   Validators(Listing(after)))
  {
    var rows, rows' := slot.rows, Listing(after);
    ListingsAgree(entries, rows, after, slot.others);
    if fate == Store && !IsStuck(Contents(rows), url) {
      AddedStores(entries, rows, after, rows', slot.others, url, cache, got, TagsOf(cache.headers));
    } else {
      UnaddedKeeps(entries, rows, rows', slot.others, url, cache, cache.View(), TagsOf(cache.headers));
      UnaddedSettles(Contents(rows), Contents(rows'), url, cache.View(), slot.known, entry, fate, began, got);
    }
  }

  lemma {:induction false} GoneHealthy(entries: seq<Entry>, url: string, cache: CacheObject, entry: Content, slot: Slot,
      fate: Fate, began: bool, got: seq<byte>, after: seq<Entry>)
    requires Gone(entries, url, cache, entry, slot, fate, began, got, after)
    requires Placed(entries, slot.others, url, cache, slot.known, entry, slot.rows)
    ensures Healthy(after)
  {
    forall e | e in after
      ensures Steady(e.item, e.item.View())
    {
      if e in entries && e.item in slot.others {
        var i :| 0 <= i < |entries| && entries[i] == e;
        assert Holds(entries[i].item, slot.rows[i]);
      }
    }
  }

  /** The destructor, and what is cached after it. */
  method Retire(s: HttpStream, handler: DataStreamHandler, ghost slot: Slot, ghost script: seq<Burst>,
      ghost rest: seq<Burst>, ghost resp: Response) returns (fate: Fate)
    requires Attached(handler, s.sURL, s.cacheObject, s.entry, slot)
    requires s.cacheObject.Valid() && s.bDeleteCache == !slot.known
    requires Plays(script, resp) && Core(script, rest, resp, s.bUseCache, s.View()) && Sound(s.View())
    requires s.bTransferFinished ==> HeardOut(script, rest, resp)
    modifies handler`HttpCache, handler`live, s.cacheObject
    ensures handler.Valid() && Healthy(handler.HttpCache) && fate == FateOf(old(s.View()))
    ensures Settled(Contents(slot.rows), s.sURL, slot.known, fate, old(s.began), old(s.received),
      Contents(Listing(handler.HttpCache)))
    ensures Retags(Validators(slot.rows), s.sURL, slot.known || (fate == Store
      && !IsStuck(Contents(slot.rows), s.sURL)),
                   old(s.View()).st.tags, Validators(Listing(handler.HttpCache)))
    ensures |handler.Loose()| == |slot.lost| + if !slot.known && fate == Keep then 1 else 0
    ensures handler.made == old(handler.made)
  {
    ghost var entries, v := handler.HttpCache, s.View();
    FateFits(script, rest, resp, s.bUseCache, v);
    fate := Destroy(s, handler, slot);
    assert |slot.lost + {s.cacheObject}| == |slot.lost| + 1;
    assert Gone(entries, s.sURL, s.cacheObject, s.entry, slot, fate, v.st.began, v.received, handler.HttpCache);
    GoneSettles(entries, s.sURL, s.cacheObject, s.entry, slot, fate, v.st.began, v.received, handler.HttpCache);
    GoneHealthy(entries, s.sURL, s.cacheObject, s.entry, slot, fate, v.st.began, v.received, handler.HttpCache);
  }

  /** A lifetime as seen from outside. */
  datatype SessionLog = SessionLog(
    url: string, use: bool, code: int, body: seq<byte>,
    known: bool, // a finished object was cached, so that the request could be conditional
    sent: Conditional, // the conditional headers of the request
    lines: seq<string>, chunked: bool, got: seq<byte>, // header lines, whether a body chunk came, all bytes that came
    heard: bool, // the end of a transfer with 304 was reported while the stream was read
    // what the reads gave, one by one and in all, whether one gave nothing, and what one threw
    pieces: seq<seq<byte>>, out: seq<byte>, ended: bool, threw: bool, error: ErrorCode)

  function GivenIn(log: SessionLog): Given {
    Given(log.pieces, log.out, log.ended, log.threw, log.error)
  }

  /** A line said 200, and after some read the caller had exactly as many bytes as were announced. */
  ghost predicate Stores(log: SessionLog) {
    log.use && Says(log.lines) && Hits(log.pieces, Announced(log.lines))
  }

  /** A line said 200, and a body chunk came. */
  ghost predicate Begins(log: SessionLog) {
    log.use && Says(log.lines) && log.chunked
  }

  /** The refresh of a cached body that was begun, and does not count as finished. */
  ghost predicate Abandons(log: SessionLog) {
    log.known && Begins(log) && !Stores(log)
  }

  /** What is stored is the body of the answer, all of which the caller has. */
  ghost predicate Takes(log: SessionLog) {
    Stores(log) && log.code != 304 && log.out == log.body
  }

  /** Something else is stored. */
  ghost predicate Spoils(log: SessionLog) {
    Stores(log) && !Takes(log)
  }

  /** The answer and what the reads gave fit together. */
  predicate Honest(log: SessionLog) {
    && (log.heard ==> log.code == 304) && (log.code == 304 && (log.ended || log.out != []) ==> log.heard)
    && log.got <= log.body && (log.got != [] ==> log.chunked) && (log.chunked ==> log.code != 304)
    && (log.code != 304 ==> log.out <= log.got)
    && (log.code != 304 && log.ended ==> log.out == log.body) && (log.ended ==> log.code in {0, 200, 304})
    && log.out == Flatten(log.pieces) && Stepwise(log.pieces, log.ended) && (log.threw ==> !log.ended)
  }

  /**
   A lifetime as a step of the cache: what is cached before and after, and what the caller got.
   Nothing but this URL changes, except that a store may evict finished entries of other URLs.
   */
  ghost predicate SessionStep(a: map<string, Content>, log: SessionLog, b: map<string, Content>) {
    var u := log.url;
    && log.known == HasStored(a, u) && Honest(log)
    && (forall w | w in b && w != u :: w in a && b[w] == a[w])
    && (forall w | w in a && w != u && (a[w].Writing? || !Stores(log)) :: w in b)
    && (Stores(log) ==> if IsStuck(a, u) then b == a else u in b && b[u] == Stored(log.got))
    && (!Stores(log) ==>
          && (u in b <==> u in a)
          && (u in a ==> b[u] == if Abandons(log) then Writing(log.got) else a[u]))
    && (log.code == 304 && log.use && log.known ==> log.out <= a[u].data && (log.ended ==> log.out == a[u].data))
    && (log.code == 304 && !(log.use && log.known) ==> log.out == [])
  }

  /** The validators that a lifetime leaves with the object it was opened on. */
  function TagsLeft(log: SessionLog, t: Tags): Tags
    requires forall line | line in log.lines :: HeaderLine(line)
  {
    if log.use then TagsAll(t, log.lines) else t
  }

  /**
   A lifetime as a step of the validators in the cache: the request carries those of the entry, and
   the entry, be it the old one or the new, ends up with what the header lines made of them.
   */
  ghost predicate TagStep(a: map<string, Content>, ta: map<string, Tags>, log: SessionLog, tb: map<string, Tags>) {
    && (forall line | line in log.lines :: HeaderLine(line))
    && (log.known ==> log.url in ta)
    && var t := if log.known then ta[log.url] else NO_TAGS;
       && log.sent == (if log.known then Sent(t) else Conditional(None, None))
       && Retags(ta, log.url, log.known || (Stores(log) && !IsStuck(a, log.url)), TagsLeft(log, t), tb)
  }

  lemma {:induction false} SettledSteps(a: map<string, Content>, b: map<string, Content>, log: SessionLog,
      resp: Response, v: Snap, began: bool)
    requires Settled(a, log.url, log.known, FateOf(v), began, log.got, b)
    requires Modest(GivenIn(log), resp, v) && Honest(log)
    requires log.known == HasStored(a, log.url) && v.entry == (if log.known then a[log.url] else Nothing)
    requires log.code == resp.code && v.use == log.use
    requires (FateOf(v) == Store <==> Stores(log)) && (FateOf(v) == Keep ==> log.code == 304)
    requires began <==> Begins(log)
    requires log.ended && resp.code == 304 && log.use ==> log.out == DataOf(v.entry)
    ensures SessionStep(a, log, b)
  {
  }

  lemma {:induction false} RetagsSteps(a: map<string, Content>, ta: map<string, Tags>, tb: map<string, Tags>,
      log: SessionLog, entryTags: Tags, tags: Tags)
    requires ta.Keys == a.Keys && log.known == HasStored(a, log.url)
      && (forall line | line in log.lines :: HeaderLine(line))
    requires entryTags == (if log.known then ta[log.url] else NO_TAGS)
    requires log.sent == (if log.known then Sent(entryTags) else Conditional(None, None))
    requires tags == if log.use then TagsAll(entryTags, log.lines) else entryTags
    requires Retags(ta, log.url, log.known || (Stores(log) && !IsStuck(a, log.url)), tags, tb)
    ensures TagStep(a, ta, log, tb)
  {
  }

  /** Which fate the reads lead to. */
  lemma {:induction false} FateIs(script: seq<Burst>, rest: seq<Burst>, resp: Response, use: bool, v: Snap, g: Given)
    requires Plays(script, resp) && Core(script, rest, resp, use, v) && Modest(g, resp, v)
    requires g.pieces != [] ==> HeardOut(script, rest, resp)
    ensures var lines := resp.lines[..LinesSeen(script, rest, resp)];
      FateOf(v) == Store <==> use && Says(lines) && Hits(g.pieces, Announced(lines))
    ensures v.finished ==> HeardOut(script, rest, resp)
    ensures v.st.began <==>
      use && Says(resp.lines[..LinesSeen(script, rest, resp)]) && Chunked(script, rest, resp)
  {
    SyncFits(script, rest, resp, use, v);
    assert HeardOut(script, rest, resp) ==> resp.lines[..LinesSeen(script, rest, resp)] == resp.lines;
  }

  /** How the reads and the answer fit together. */
  lemma {:induction false} AnswerFits(script: seq<Burst>, rest: seq<Burst>, resp: Response, use: bool, v: Snap,
      g: Given)
    requires Plays(script, resp) && Core(script, rest, resp, use, v) && Modest(g, resp, v)
    requires !g.threw ==> Live(script, rest, resp, use, v, g.out, g.ended)
    ensures (v.fromCache ==> resp.code == 304) && (resp.code == 304 && g.ended ==> v.fromCache)
    ensures Chunked(script, rest, resp) ==> resp.code != 304
    ensures v.received <= resp.body && (v.received != [] ==> Chunked(script, rest, resp))
    ensures resp.code != 304 && g.ended ==> g.out == resp.body
    ensures resp.code == 304 && use && g.ended ==> g.out == DataOf(v.entry)
    ensures g.ended ==> resp.code in {0, 200, 304}
  {
    SyncFits(script, rest, resp, use, v);
  }

  /** When all header lines have come. */
  lemma {:induction false} LinesFit(script: seq<Burst>, rest: seq<Burst>, resp: Response, use: bool, v: Snap, g: Given)
    requires Plays(script, resp) && Core(script, rest, resp, use, v)
    requires if g.threw then ErrorOf(Used(script, rest), 0) == Some(g.error)
             else Live(script, rest, resp, use, v, g.out, g.ended)
    requires (g.threw ==> !g.ended) && (g.pieces != [] ==> HeardOut(script, rest, resp))
    ensures g.ended || g.pieces != [] || Chunked(script, rest, resp) ==>
      LinesSeen(script, rest, resp) == |resp.lines|
    ensures g.threw ==>
      && ErrorOf(script, 0) == Some(g.error)
      && (Breaks(script) || (LinesSeen(script, rest, resp) == |resp.lines| && Refuses(resp.code, g.error)))
  {
    if g.threw {
      var k := |script| - |rest|;
      ErrorInPart(script, k);
      if !Breaks(script) {
        ErrorSeesLines(script, k, resp);
      }
    }
  }

  /** A stream that had found nothing was told that what it had is still good, and stores nothing. */
  ghost predicate Leaks(log: SessionLog) {
    !log.known && log.use && log.heard && !Stores(log)
  }

  /** How a lifetime went, in the terms of what it was up against. */
  ghost predicate Follows(log: SessionLog, url: string, use: bool, script: seq<Burst>, resp: Response, plan: Plan) {
    && log.url == url && log.use == use && log.code == resp.code && log.body == resp.body
    && log.lines <= resp.lines && (log.pieces != [] || log.chunked ==> log.lines == resp.lines)
    && (log.threw ==>
          && ErrorOf(script, 0) == Some(log.error)
          && (Breaks(script) || (log.lines == resp.lines && Refuses(log.code, log.error))))
    && Paced(GivenIn(log), plan)
  }

  lemma {:induction false} LinesCut(lines: seq<string>, k: nat)
    requires k <= |lines|
    ensures lines[..k] <= lines && (k == |lines| ==> lines[..k] == lines)
  {
  }

  /** The log of a stream that has been read. */
  function LogOf(url: string, known: bool, sent: Conditional, script: seq<Burst>, rest: seq<Burst>, resp: Response,
      use: bool, heard: bool, g: Given): SessionLog {
    SessionLog(url, use, resp.code, resp.body, known, sent, resp.lines[..LinesSeen(script, rest, resp)],
               Chunked(script, rest, resp), BodyTo(0, Deliveries(Used(script, rest))), heard,
               g.pieces, g.out, g.ended, g.threw, g.error)
  }

  lemma {:induction false} LogFits(url: string, known: bool, sent: Conditional, script: seq<Burst>, rest: seq<Burst>,
      resp: Response, use: bool, v: Snap, g: Given, plan: Plan)
    requires Plays(script, resp) && Core(script, rest, resp, use, v) && Modest(g, resp, v) && Sound(v) && Paced(g, plan)
    requires if g.threw then ErrorOf(Used(script, rest), 0) == Some(g.error)
             else Live(script, rest, resp, use, v, g.out, g.ended)
    requires g.pieces != [] ==> HeardOut(script, rest, resp)
    ensures v.finished ==> HeardOut(script, rest, resp)
    ensures var log := LogOf(url, known, sent, script, rest, resp, use, v.fromCache, g);
      && log.got == v.received && Honest(log) && Follows(log, url, use, script, resp, plan)
      && (FateOf(v) == Store <==> Stores(log)) && (FateOf(v) == Keep <==> log.use && log.heard && !Stores(log))
      && (v.st.began <==> Begins(log))
      && (log.ended && resp.code == 304 && use ==> log.out == DataOf(v.entry))
      && (forall line | line in log.lines :: HeaderLine(line))
      && v.st.tags == if use then TagsAll(v.entryTags, log.lines) else v.entryTags
  {
    FateIs(script, rest, resp, use, v, g);
    AnswerFits(script, rest, resp, use, v, g);
    LinesFit(script, rest, resp, use, v, g);
    TagsFit(script, rest, resp, use, v);
    LinesCut(resp.lines, LinesSeen(script, rest, resp));
  }

  /** The step of contents and validators. */
  lemma {:induction false} LogSteps(a: map<string, Content>, b: map<string, Content>, ta: map<string, Tags>,
      tb: map<string, Tags>, log: SessionLog, resp: Response, v: Snap)
    requires Settled(a, log.url, log.known, FateOf(v), v.st.began, log.got, b) && ta.Keys == a.Keys
    requires Modest(GivenIn(log), resp, v) && Honest(log)
    requires log.known == HasStored(a, log.url) && v.entry == (if log.known then a[log.url] else Nothing)
    requires log.code == resp.code && v.use == log.use
    requires (FateOf(v) == Store <==> Stores(log)) && (FateOf(v) == Keep ==> log.code == 304)
    requires v.st.began <==> Begins(log)
    requires log.ended && resp.code == 304 && log.use ==> log.out == DataOf(v.entry)
    requires forall line | line in log.lines :: HeaderLine(line)
    requires v.entryTags == (if log.known then ta[log.url] else NO_TAGS)
    requires log.sent == (if log.known then Sent(v.entryTags) else Conditional(None, None))
    requires v.st.tags == if log.use then TagsAll(v.entryTags, log.lines) else v.entryTags
    requires Retags(ta, log.url, log.known || (FateOf(v) == Store && !IsStuck(a, log.url)), v.st.tags, tb)
    ensures SessionStep(a, log, b) && TagStep(a, ta, log, tb)
  {
    SettledSteps(a, b, log, resp, v, v.st.began);
    RetagsSteps(a, ta, tb, log, v.entryTags, v.st.tags);
  }

  /** The log, and the destructor of a stream that has been read. */
  method Depart(s: HttpStream, m: Multi, handler: DataStreamHandler, known: bool, ghost plan: Plan, use: bool,
      script: seq<Burst>, resp: Response, g: Given, ghost slot: Slot)
    returns (log: SessionLog)
    requires Plays(script, resp) && Under(s, m, script, resp, use, g) && Paced(g, plan)
    requires Attached(handler, s.sURL, s.cacheObject, s.entry, slot) && slot.known == known && s.bDeleteCache == !known
    requires s.entryTags == TagsAt(known, s.sURL, slot.rows)
      && s.request == if known then Sent(s.entryTags) else Conditional(None, None)
    modifies s.cacheObject, handler`HttpCache, handler`live
    ensures handler.Valid() && Healthy(handler.HttpCache)
    ensures Follows(log, s.sURL, use, script, resp, plan)
    ensures SessionStep(Contents(slot.rows), log, Contents(Listing(handler.HttpCache)))
    ensures TagStep(Contents(slot.rows), Validators(slot.rows), log, Validators(Listing(handler.HttpCache)))
    ensures |handler.Loose()| == |slot.lost| + if Leaks(log) then 1 else 0
    ensures handler.made == old(handler.made)
  {
    log := LogOf(s.sURL, known, s.request, script, m.script, resp, use, s.bStreamFromCache, g);
    LogFits(s.sURL, known, s.request, script, m.script, resp, use, s.View(), g, plan);
    RetireLogged(s, handler, slot, script, m.script, resp, log);
  }

  /** The destructor as a step of contents and validators. */
  method RetireLogged(s: HttpStream, handler: DataStreamHandler, ghost slot: Slot, ghost script: seq<Burst>,
      ghost rest: seq<Burst>, ghost resp: Response, ghost log: SessionLog)
    requires Attached(handler, s.sURL, s.cacheObject, s.entry, slot)
    requires s.cacheObject.Valid() && s.bDeleteCache == !slot.known
    requires Plays(script, resp) && Core(script, rest, resp, s.bUseCache, s.View()) && Sound(s.View())
    requires s.bTransferFinished ==> HeardOut(script, rest, resp)
    requires s.entryTags == TagsAt(slot.known, s.sURL, slot.rows)
    requires Logged(log, s.sURL, slot.known, resp, s.View())
      && log.sent == if slot.known then Sent(s.entryTags) else Conditional(None, None)
    modifies handler`HttpCache, handler`live, s.cacheObject
    ensures handler.Valid() && Healthy(handler.HttpCache)
    ensures SessionStep(Contents(slot.rows), log, Contents(Listing(handler.HttpCache)))
    ensures TagStep(Contents(slot.rows), Validators(slot.rows), log, Validators(Listing(handler.HttpCache)))
    ensures |handler.Loose()| == |slot.lost| + if Leaks(log) then 1 else 0
    ensures handler.made == old(handler.made)
  {
    ghost var v := s.View();
    SameKeys(slot.rows);
    var _ := Retire(s, handler, slot, script, rest, resp);
    LogSteps(Contents(slot.rows), Contents(Listing(handler.HttpCache)), Validators(slot.rows),
      Validators(Listing(handler.HttpCache)), log, resp, v);
  }

  /** The log says what the stream is like before its destructor. */
  ghost predicate Logged(log: SessionLog, url: string, known: bool, resp: Response, v: Snap) {
    && log.url == url && log.known == known && log.code == resp.code && log.use == v.use
    && log.got == v.received && Honest(log) && Modest(GivenIn(log), resp, v)
    && (FateOf(v) == Store <==> Stores(log)) && (FateOf(v) == Keep <==> log.use && log.heard && !Stores(log))
    && (v.st.began <==> Begins(log))
    && (log.ended && resp.code == 304 && log.use ==> log.out == DataOf(v.entry))
    && (forall line | line in log.lines :: HeaderLine(line))
    && v.st.tags == if log.use then TagsAll(v.entryTags, log.lines) else v.entryTags
  }

  /** The caller's reads and the destructor of a stream that has been opened. */
  method UseUp(s: HttpStream, m: Multi, handler: DataStreamHandler, known: bool, plan: Plan, use: bool,
      script: seq<Burst>, resp: Response, ghost slot: Slot)
    returns (log: SessionLog)
    requires Plays(script, resp) && Alive(s, m, script, resp, use) && s.fBytesToRead == 0
    requires Live(script, m.script, resp, use, s.View(), [], false) && s.bUseCache == use && !s.bTransferFinished
    requires Sensible(plan)
    requires Attached(handler, s.sURL, s.cacheObject, s.entry, slot) && slot.known == known && s.bDeleteCache == !known
    requires s.entryTags == TagsAt(known, s.sURL, slot.rows)
      && s.request == if known then Sent(s.entryTags) else Conditional(None, None)
    modifies m`script, m`running, s, s.cacheObject, handler`HttpCache, handler`live
    ensures handler.Valid() && Healthy(handler.HttpCache)
    ensures Follows(log, s.sURL, use, script, resp, plan)
    ensures SessionStep(Contents(slot.rows), log, Contents(Listing(handler.HttpCache)))
    ensures TagStep(Contents(slot.rows), Validators(slot.rows), log, Validators(Listing(handler.HttpCache)))
    ensures |handler.Loose()| == |slot.lost| + if Leaks(log) then 1 else 0
    ensures handler.made == old(handler.made)
  {
    var g := DrainAttached(s, m, plan, script, resp, use, handler, slot);
    log := Depart(s, m, handler, known, plan, use, script, resp, g, slot);
  }

  /** One stream, from newStream through the caller's reads to its destructor. */
  method Session(handler: DataStreamHandler, url: string, useCache: bool, script: seq<Burst>, resp: Response,
      plan: Plan)
    returns (log: SessionLog)
    requires handler.Valid() && Healthy(handler.HttpCache) && Plays(script, resp)
    requires Sensible(plan)
    modifies handler, handler.made
    ensures handler.Valid() && Healthy(handler.HttpCache)
    ensures Follows(log, url, useCache, script, resp, plan)
    ensures SessionStep(old(Contents(Listing(handler.HttpCache))), log, Contents(Listing(handler.HttpCache)))
    ensures TagStep(old(Contents(Listing(handler.HttpCache))), old(Validators(Listing(handler.HttpCache))), log,
                    Validators(Listing(handler.HttpCache)))
    ensures handler.OnlyNew()
    ensures |handler.Loose()| == |old(handler.Loose())| + if Leaks(log) then 1 else 0
  {
    ghost var rows := Listing(handler.HttpCache);
    KeptAtFirst(handler.HttpCache);
    var cache, known; ghost var slot;
    cache, known, slot := FindOrAllocate(handler, url, rows);
    var s, m := OpenAttached(cache, known, url, useCache, script, resp, handler, slot);
    log := UseUp(s, m, handler, known, plan, useCache, script, resp, slot);
  }
}
