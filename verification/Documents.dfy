/**
 Local documents: src/FileStream.cpp, src/TidyStream.cpp over it, and the read loop and the three
 passes of src/XmlReader.cpp. libtidy is any function on documents; a file is what opening it finds.
 */
module Documents {
  import opened Bytes
  import opened CacheObjects
  import opened CacheIndex
  import opened HttpHeaders
  import opened Lifetimes
  import opened Parsing

  // ---- FileStream ------------------------------------------------

  /** A finished, tidied object that may have been read up to `pos`. */
  ghost predicate Playing(cache: CacheObject, data: seq<byte>, pos: nat, tags: Tags)
    reads cache
  {
    cache.Valid() && cache.headers.bTidyFlag && TagsOf(cache.headers) == tags && pos <= |data|
      && (cache.View() == Reading(data, pos) || (cache.View() == Stored(data) && pos == 0))
  }

  /** One read from such an object. */
  method ReadPlaying(cache: CacheObject, ghost data: seq<byte>, ghost pos: nat, ghost tags: Tags, toFill: array<byte>,
      maxToRead: nat) returns (n: nat)
    requires Playing(cache, data, pos, tags) && maxToRead <= toFill.Length
    modifies cache, toFill
    ensures n == Min(maxToRead, |data| - pos) && Playing(cache, data, pos + n, tags)
      && toFill[..n] == data[pos..pos + n]
  {
    n := cache.ReadBytes(toFill, 0, maxToRead);
    assert toFill[0..n] == toFill[..n];
  }

  class FileStream {
    /** cacheObject: with one, the mode is CACHED, else READ. */
    const cache: Option<CacheObject>
    /** What stat, fopen and fread find under the name. */
    const disk: Option<seq<byte>>
    var bIsOpen: bool
    var fp: nat
    var fTotalBytesRead: nat
    /** All that the stream has to give, and the validators of the cached copy. */
    ghost const whole: Option<seq<byte>>
    ghost const tags: Tags

    ghost predicate Valid()
      reads this, if cache.Some? then {cache.value} else {}
    {
      if cache.Some? then whole.Some? && Playing(cache.value, whole.value, fTotalBytesRead, tags)
      else fp == fTotalBytesRead && whole == disk && (whole.Some? ==> fp <= |whole.value|) && (!bIsOpen ==> fp == 0)
           && (bIsOpen ==> disk.Some?)
    }

    constructor (co: Option<CacheObject>, disk: Option<seq<byte>>)
      requires co.Some? ==> co.value.Valid() && co.value.View().Stored? && co.value.headers.bTidyFlag
      ensures Valid() && cache == co && this.disk == disk && fTotalBytesRead == 0
      ensures whole == (if co.Some? then Some(co.value.View().data) else disk)
        && (co.Some? ==> tags == TagsOf(co.value.headers))
    {
      cache, this.disk := co, disk;
      bIsOpen, fp, fTotalBytesRead := co.Some?, 0, 0;
      whole := if co.Some? then Some(co.value.View().data) else disk;
      tags := if co.Some? then TagsOf(co.value.headers) else NO_TAGS;
    }

    /** openStream */
    method OpenStream() returns (ok: bool)
      requires Valid() && cache.None? && !bIsOpen
      modifies this
      ensures Valid() && fTotalBytesRead == old(fTotalBytesRead) && bIsOpen == ok == disk.Some?
    {
      ok := disk.Some?;
      bIsOpen := ok;
    }

    /** readBytes; None stands for -1. */
    method ReadBytes(toFill: array<byte>, maxToRead: nat) returns (r: Option<nat>)
      requires Valid() && maxToRead <= toFill.Length
      modifies this, toFill, if cache.Some? then {cache.value} else {}
      ensures Valid() && (r.None? <==> whole.None?)
      ensures r.Some? ==>
        var at, n := old(fTotalBytesRead), r.value;
        && at + n <= |whole.value| && n == Min(maxToRead, |whole.value| - at)
        && fTotalBytesRead == at + n && toFill[..n] == whole.value[at..at + n]
    {
      var fBytesRead := 0;
      if cache.None? {
        if !bIsOpen {
          var ok := OpenStream();
          if !ok {
            return None;
          }
        }
        fBytesRead := Min(maxToRead, |disk.value| - fp);
        Overwrite(toFill, 0, fBytesRead, disk.value[fp..fp + fBytesRead]);
        assert toFill[0..fBytesRead] == toFill[..fBytesRead];
        fp := fp + fBytesRead;
      } else {
        fBytesRead := ReadPlaying(cache.value, whole.value, fTotalBytesRead, tags, toFill, maxToRead);
      }
      fTotalBytesRead := fTotalBytesRead + fBytesRead;
      return Some(fBytesRead);
    }

    /** ~FileStream */
    method Close()
      requires Valid()
      modifies if cache.Some? then {cache.value} else {}
      ensures cache.Some? ==>
        Steady(cache.value, Stored(whole.value)) && cache.value.headers.bTidyFlag && TagsOf(cache.value.headers) == tags
    {
      if cache.Some? {
        cache.value.ResetState();
      }
    }
  }

  // ---- A file stream beside the cache index ------------------------------------------------

  /** Copies of this document in the cache are tidied ones. */
  ghost predicate Flagged(entries: seq<Entry>, url: string)
    reads set e | e in entries :: e.item
  {
    forall e | e in entries && e.url == url :: e.item.headers.bTidyFlag
  }

  /** No stream is open on the document, and `rows` is what is cached. */
  ghost predicate Calm(handler: DataStreamHandler, url: string, rows: seq<Cached>)
    reads handler, handler.Items()
  {
    handler.Valid() && Kept(handler.HttpCache, handler.Items(), rows) && Flagged(handler.HttpCache, url)
  }

  /** The cached copy of the document, if there is one, is being read; `rows` is what is cached. */
  ghost predicate CopyIn(handler: DataStreamHandler, url: string, cache: Option<CacheObject>, rows: seq<Cached>)
    reads handler, handler.Items() - (if cache.Some? then {cache.value} else {})
  {
    && handler.Valid() && (cache.Some? <==> HasStored(Contents(rows), url))
    && (forall e | e in handler.HttpCache && e.url == url && Some(e.item) != cache :: e.item.headers.bTidyFlag)
    && (cache.Some? ==> Entry(url, cache.value) in handler.HttpCache)
    && Kept(handler.HttpCache, handler.Items() - (if cache.Some? then {cache.value} else {}), rows)
  }

  /** A file stream is open on the document: on the cached copy if there is one. */
  ghost predicate FileIn(handler: DataStreamHandler, file: FileStream, url: string, rows: seq<Cached>)
    reads handler, handler.Items() - (if file.cache.Some? then {file.cache.value} else {})
  {
    && CopyIn(handler, url, file.cache, rows)
    && file.whole == (if HasStored(Contents(rows), url) then Some(Contents(rows)[url].data) else file.disk)
    && (file.cache.Some? ==> url in Validators(rows) && file.tags == Validators(rows)[url])
  }

  lemma {:induction false} KeptMore(entries: seq<Entry>, items: set<CacheObject>, url: string, cache: CacheObject,
      rows: seq<Cached>)
    requires Ordered(entries) && Entry(url, cache) in entries && Kept(entries, items - {cache}, rows)
    requires url in Contents(rows) && url in Validators(rows)
      && Holds(cache, Cached(url, Contents(rows)[url], Validators(rows)[url]))
    ensures Kept(entries, items, rows)
  {
    RowsDistinct(entries, rows);
    forall i | 0 <= i < |entries| && entries[i].item in items
      ensures Holds(entries[i].item, rows[i])
    {
      if entries[i].item == cache {
        Same(entries, Entry(url, cache));
        assert entries[i] in entries;
        ContentsAt(rows, i);
      }
    }
  }

  /** newStream for a local document. */
  method OpenFile(handler: DataStreamHandler, url: string, disk: Option<seq<byte>>,
      ghost rows: seq<Cached>) returns (file: FileStream)
    requires Calm(handler, url, rows)
    ensures fresh(file) && file.Valid() && file.fTotalBytesRead == 0 && file.disk == disk
      && FileIn(handler, file, url, rows)
    ensures handler.made == old(handler.made)
  {
    var cacheObject := handler.GetCacheObject(url);
    if cacheObject.Some? {
      ghost var i :| 0 <= i < |handler.HttpCache| && handler.HttpCache[i] == Entry(url, cacheObject.value);
      KeptOne(handler.HttpCache, handler.Items(), i, rows);
      KeptFewer(handler.HttpCache, handler.Items(), handler.Items() - {cacheObject.value}, rows);
    } else {
      NothingKnown(handler.HttpCache, handler.Items(), url, rows);
      assert handler.Items() - {} == handler.Items();
    }
    file := new FileStream(cacheObject, disk);
  }

  /** delete of a file stream. */
  method CloseFile(handler: DataStreamHandler, file: FileStream, url: string, ghost rows: seq<Cached>)
    requires file.Valid() && FileIn(handler, file, url, rows)
    modifies if file.cache.Some? then {file.cache.value} else {}
    ensures Calm(handler, url, rows)
    ensures handler.made == old(handler.made) && handler.Loose() == old(handler.Loose())
  {
    file.Close();
    if file.cache.Some? {
      KeptMore(handler.HttpCache, handler.Items(), url, file.cache.value, rows);
    } else {
      assert handler.Items() - {} == handler.Items();
    }
  }

  // ---- TidyStream ------------------------------------------------

  datatype TidyMode = TIDY | CACHED | PASSTROUGH

  /** std::string::rfind: the last place where the pattern stands, or npos. */
  function RFind(s: string, pattern: string, from: nat): (r: nat)
    requires from <= |s| < SIZE_T - 1
    ensures r == SIZE_T - 1 ==> forall k | 0 <= k <= from :: !(pattern <= s[k..])
    ensures r != SIZE_T - 1 ==> r <= from && pattern <= s[r..] && forall k | r < k <= from :: !(pattern <= s[k..])
  {
    if pattern <= s[from..] then from else if from == 0 then SIZE_T - 1 else RFind(s, pattern, from - 1)
  }

  /** The test of the constructor, in unsigned arithmetic. */
  predicate PassesThrough(url: string)
    requires |url| < SIZE_T - 1
  {
    RFind(url, ".smil", |url|) == (|url| - 5) % SIZE_T
  }

  /** It holds for names that end in .smil, and also for every name of four characters. */
  lemma {:induction false} PassesThroughIs(url: string)
    requires |url| < SIZE_T - 1
    ensures PassesThrough(url) <==> |url| == 4 || (|url| >= 5 && url[|url| - 5..] == ".smil")
  {
    var r := RFind(url, ".smil", |url|);
    if |url| >= 5 {
      assert (|url| - 5) % SIZE_T == |url| - 5;
      forall k | |url| - 5 < k <= |url|
        ensures !(".smil" <= url[k..])
      {
      }
      assert ".smil" <= url[|url| - 5..] <==> url[|url| - 5..] == ".smil";
    } else {
      assert (|url| - 5) % SIZE_T == |url| - 5 + SIZE_T;
      assert r == SIZE_T - 1;
    }
  }

  lemma {:induction false} FourCharactersPassThrough()
    ensures PassesThrough("/doc") && !PassesThrough("/docs")
  {
    PassesThroughIs("/doc");
    PassesThroughIs("/docs");
    assert "/docs"[0..] == "/docs" && "/docs"[0] == '/' && ".smil"[0] == '.';
  }

  /** What a tidied copy in the cache makes of the map of contents. */
  ghost predicate TidiedCopy(a: map<string, Content>, url: string, out: seq<byte>, b: map<string, Content>) {
    if IsStuck(a, url) then b == a else StoredIn(a, url, out, b)
  }

  /** What is cached after the new object has been handed to the index. */
  lemma {:induction false} StoredAway(entries: seq<Entry>, url: string, cache: CacheObject, slot: Slot, out: seq<byte>,
      after: seq<Entry>)
    requires Kept(entries, slot.others, slot.rows) && Ordered(entries) && Ordered(after)
    requires Placed(entries, slot.others, url, cache, false, Nothing, slot.rows)
    requires Steady(cache, Stored(out)) && cache.headers.bTidyFlag && Flagged(entries, url)
    requires if IsStuck(Contents(slot.rows), url) then after == entries else Added(entries, slot.rows, url, cache,
      after)
    ensures Healthy(after) && Flagged(after, url) && TidiedCopy(Contents(slot.rows), url, out, Contents(Listing(after)))
  {
    ListingsAgree(entries, slot.rows, after, slot.others);
    if IsStuck(Contents(slot.rows), url) {
      UnaddedKeeps(entries, slot.rows, Listing(after), slot.others, url, cache, Stored(out), TagsOf(cache.headers));
    } else {
      AddedStores(entries, slot.rows, after, Listing(after), slot.others, url, cache, out, TagsOf(cache.headers));
    }
    forall e | e in after
      ensures Steady(e.item, e.item.View())
    {
      if e in entries && e.item in slot.others {
        var i :| 0 <= i < |entries| && entries[i] == e;
        assert Holds(entries[i].item, slot.rows[i]);
      }
    }
  }

  /** The loop of Perform that takes the whole document in. */
  method TakeWhole(file: FileStream) returns (doc: Option<seq<byte>>)
    requires file.Valid() && file.fTotalBytesRead == 0
    modifies file, if file.cache.Some? then {file.cache.value} else {}
    ensures file.Valid() && doc == file.whole
  {
    var buf := new byte[BUFSIZE];
    var docbuf, bytesRead := [], 1;
    while bytesRead != 0
      invariant file.Valid() && (file.whole.Some? ==> file.fTotalBytesRead <= |file.whole.value|)
      invariant file.whole.None? ==> bytesRead == 1
      invariant file.whole.Some? ==> docbuf == file.whole.value[..file.fTotalBytesRead]
      invariant file.whole.Some? && bytesRead == 0 ==> file.fTotalBytesRead == |file.whole.value|
      decreases if file.whole.Some? then |file.whole.value| - file.fTotalBytesRead else 0, bytesRead
    {
      var r := file.ReadBytes(buf, BUFSIZE);
      if r.None? {
        return None;
      }
      bytesRead := r.value;
      docbuf := docbuf + buf[..bytesRead];
    }
    doc := Some(docbuf);
    assert file.whole.value[..file.fTotalBytesRead] == file.whole.value;
  }

  /** The tidied document goes into the object; an empty one as writeBytes(NULL, 0). */
  method StoreTidied(cache: CacheObject, outbuf: seq<byte>)
    requires cache.Valid() && (cache.View().Nothing? || cache.View().Stored?)
    modifies cache
    ensures Steady(cache, Stored(outbuf)) && cache.headers == old(cache.headers).(bTidyFlag := true)
  {
    var r := cache.WriteBytes(if outbuf == [] then None else Some(outbuf));
    if r == |outbuf| {
      var _ := cache.WriteBytes(None);
      cache.ResetState();
      cache.SetTidyFlag(true);
    }
  }

  class TidyStream {
    const sURL: string
    const handler: DataStreamHandler
    /** libtidy: tidyParseBuffer, tidyCleanAndRepair and tidySaveBuffer. */
    const tidy: seq<byte> -> seq<byte>
    const inStream: FileStream
    var mode: TidyMode
    var outbuf: seq<byte>
    var cacheObject: CacheObject?
    var fTotalBytesRead: nat
    var bUseCache: bool
    var bTidied: bool
    ghost const rows: seq<Cached>
    /** All that the stream has to give. */
    ghost const promise: Option<seq<byte>>

    constructor (url: string, file: FileStream, handler: DataStreamHandler, tidy: seq<byte> -> seq<byte>,
        ghost rows: seq<Cached>)
      requires |url| < SIZE_T - 1
      ensures sURL == url && inStream == file && this.handler == handler && this.tidy == tidy && this.rows == rows
      ensures mode == (if PassesThrough(url) then PASSTROUGH else TIDY) && fTotalBytesRead == 0 && bUseCache && !bTidied
      ensures promise ==
        if PassesThrough(url) || file.cache.Some? then file.whole
        else if file.whole.Some? then Some(tidy(file.whole.value)) else None
    {
      sURL, inStream, this.handler, this.tidy, this.rows := url, file, handler, tidy, rows;
      mode := if PassesThrough(url) then PASSTROUGH else TIDY;
      outbuf, cacheObject, fTotalBytesRead, bUseCache, bTidied := [], null, 0, true, false;
      promise := if PassesThrough(url) || file.cache.Some? then file.whole
                 else if file.whole.Some? then Some(tidy(file.whole.value)) else None;
    }

    method UseCache(setting: bool)
      modifies this`bUseCache
      ensures bUseCache == setting
    {
      bUseCache := setting;
    }

    /** The tidied document is there. */
    ghost predicate Tidied()
      reads this, if mode == CACHED && cacheObject != null then {cacheObject} else {}
    {
      bTidied && Whole()
    }

    ghost predicate Whole()
      reads this`mode, this`outbuf, this`fTotalBytesRead, this`cacheObject, if mode == CACHED
        && cacheObject != null then {cacheObject} else {}
    {
      && promise.Some?
      && match mode
         case TIDY => outbuf == promise.value && fTotalBytesRead <= |outbuf|
         case CACHED => cacheObject != null && Playing(cacheObject, promise.value, fTotalBytesRead, TagsAt(true,
           sURL, rows))
         case PASSTROUGH => false
    }

    /** Perform, up to the lookup in the cache: the source is read and deleted. */
    method TakeIn() returns (doc: Option<seq<byte>>)
      requires inStream.Valid() && inStream.fTotalBytesRead == 0 && FileIn(handler, inStream, sURL, rows)
      modifies this`bTidied, inStream, if inStream.cache.Some? then {inStream.cache.value} else {}
      ensures doc == inStream.whole && Calm(handler, sURL, rows) && handler.Loose() == old(handler.Loose())
      ensures handler.HttpCache == old(handler.HttpCache)
      ensures bTidied == doc.Some? && mode == old(mode) && bUseCache == old(bUseCache)
        && fTotalBytesRead == old(fTotalBytesRead)
      ensures handler.made == old(handler.made)
    {
      doc := TakeWhole(inStream);
      CloseFile(handler, inStream, sURL, rows);
      bTidied := doc.Some?;
    }

    /** What Perform does to the cache: a new copy is cached, or lost when caching is off. */
    ghost predicate Recorded(a: map<string, Content>, b: map<string, Content>)
      reads this`bUseCache
    {
      if bUseCache then promise.Some? && TidiedCopy(a, sURL, promise.value, b) else b == a
    }

    /** The copy is handed to the index. */
    method AddCopy(cache: CacheObject, ghost slot: Slot)
      requires Attached(handler, sURL, cache, Nothing, slot) && !slot.known && slot.rows == rows
      requires mode == TIDY && bUseCache && Whole() && cache.headers.bTidyFlag && Steady(cache, Stored(outbuf))
      requires Flagged(handler.HttpCache, sURL)
      modifies handler`HttpCache, handler`live
      ensures Settled() && handler.Loose() == slot.lost
      ensures handler.made == old(handler.made)
    {
      ghost var entries := handler.HttpCache;
      AddAttached(handler, sURL, cache, Nothing, slot);
      StoredAway(entries, sURL, cache, slot, outbuf, handler.HttpCache);
      KeptAtFirst(handler.HttpCache);
    }

    /** Without caching nobody holds the copy. */
    lemma {:induction false} CopyLost(cache: CacheObject, slot: Slot)
      requires Attached(handler, sURL, cache, Nothing, slot) && !slot.known && slot.rows == rows
      requires mode == TIDY && !bUseCache && Flagged(handler.HttpCache, sURL)
      ensures Settled() && |handler.Loose()| == |slot.lost| + 1
    {
      StillThere(handler.HttpCache, sURL, cache, slot);
      assert |slot.lost + {cache}| == |slot.lost| + 1;
    }

    /** The document is tidied, and a copy of it made. */
    method MakeCopy(doc: seq<byte>, cache: CacheObject, ghost slot: Slot)
      requires Attached(handler, sURL, cache, Nothing, slot) && !slot.known && slot.rows == rows
      requires cache.Valid() && cache.View().Nothing? && Flagged(handler.HttpCache, sURL) && promise == Some(tidy(doc))
      requires mode == TIDY && fTotalBytesRead == 0
      modifies this`outbuf, this`cacheObject, cache
      ensures Attached(handler, sURL, cache, Nothing, slot) && Flagged(handler.HttpCache, sURL)
      ensures Whole() && cache.headers.bTidyFlag && Steady(cache, Stored(outbuf))
      ensures mode == TIDY && bUseCache == old(bUseCache) && fTotalBytesRead == 0 && bTidied == old(bTidied)
      ensures handler.made == old(handler.made)
    {
      cacheObject, outbuf := cache, tidy(doc);
      StoreTidied(cache, outbuf);
    }

    /** Perform, when no tidied copy was found: the document is tidied and the copy stored. */
    method StoreCopy(doc: seq<byte>, cache: CacheObject, ghost slot: Slot)
      requires Attached(handler, sURL, cache, Nothing, slot) && !slot.known && slot.rows == rows
      requires cache.Valid() && cache.View().Nothing? && Flagged(handler.HttpCache, sURL) && promise == Some(tidy(doc))
      requires mode == TIDY && fTotalBytesRead == 0
      modifies this`outbuf, this`cacheObject, cache, handler`HttpCache, handler`live
      ensures Whole() && Settled()
      ensures mode == TIDY && bUseCache == old(bUseCache) && fTotalBytesRead == 0 && bTidied == old(bTidied)
      ensures |handler.Loose()| == |slot.lost| + if bUseCache then 0 else 1
      ensures handler.made == old(handler.made)
    {
      MakeCopy(doc, cache, slot);
      if bUseCache {
        AddCopy(cache, slot);
      } else {
        CopyLost(cache, slot);
      }
    }

    /** The stream before its first read. */
    ghost predicate Untouched()
      reads this`mode, this`bTidied, this`fTotalBytesRead, inStream
      reads handler, handler.Items(), if inStream.cache.Some? then {inStream.cache.value} else {}
    {
      && inStream.Valid() && inStream.fTotalBytesRead == 0 && FileIn(handler, inStream, sURL, rows)
      && !bTidied && fTotalBytesRead == 0 && mode != CACHED
      && promise ==
           if mode == PASSTROUGH || inStream.cache.Some? then inStream.whole
           else if inStream.whole.Some? then Some(tidy(inStream.whole.value)) else None
    }

    /** What has become of the index once Perform is through. */
    ghost predicate Settled()
      reads this`mode, this`cacheObject, this`bUseCache, handler
      reads handler.Items() - (if mode == CACHED && cacheObject != null then {cacheObject} else {})
    {
      match mode
      case CACHED => cacheObject != null && CopyIn(handler, sURL, Some(cacheObject), rows)
      case TIDY => !HasStored(Contents(rows), sURL) && Calm(handler, sURL, Listing(handler.HttpCache))
                   && Recorded(Contents(rows), Contents(Listing(handler.HttpCache)))
      case PASSTROUGH => false
    }

    /** A tidied copy was found, and is used. */
    method UseCopy(cache: CacheObject, ghost slot: Slot)
      requires HasStored(Contents(rows), sURL) && Attached(handler, sURL, cache, Contents(rows)[sURL], slot)
      requires slot.known && slot.rows == rows && promise == Some(Contents(rows)[sURL].data)
      requires Playing(cache, promise.value, 0, TagsAt(true, sURL, rows)) && Flagged(handler.HttpCache, sURL)
        && fTotalBytesRead == 0
      modifies this`mode, this`cacheObject, cache
      ensures mode == CACHED && cacheObject == cache && Whole() && Settled() && handler.Loose() == old(handler.Loose())
      ensures bUseCache == old(bUseCache) && fTotalBytesRead == 0 && bTidied == old(bTidied)
      ensures handler.made == old(handler.made)
    {
      cache.ResetState();
      mode, cacheObject := CACHED, cache;
      KeptFewer(handler.HttpCache, slot.others, handler.Items() - {cache}, rows);
    }

    /** Perform, from the lookup in the cache on. */
    method Produce(doc: seq<byte>, ghost copy: Option<CacheObject>)
      requires Calm(handler, sURL, rows) && bTidied && mode == TIDY && fTotalBytesRead == 0
      requires copy.Some? ==> Entry(sURL, copy.value) in handler.HttpCache
      requires copy.Some? <==> HasStored(Contents(rows), sURL)
      requires promise == Some(if copy.Some? then Contents(rows)[sURL].data else tidy(doc))
      modifies this`mode, this`outbuf, this`cacheObject
      modifies if copy.Some? then {copy.value} else {}, handler`HttpCache, handler`live, handler`made
      ensures Tidied() && Settled() && (mode == CACHED ==> copy == Some(cacheObject))
      ensures bUseCache == old(bUseCache) && fTotalBytesRead == 0
      ensures handler.OnlyNew()
      ensures |handler.Loose()| == |old(handler.Loose())| + if !HasStored(Contents(rows), sURL)
        && !old(bUseCache) then 1 else 0
    {
      var cache, known; ghost var slot;
      ghost var entries := handler.HttpCache;
      cache, known, slot := FindOrAllocate(handler, sURL, rows);
      assert handler.HttpCache == entries && Flagged(entries, sURL);
      if known && cache.headers.bTidyFlag {
        Same(entries, Entry(sURL, cache));
        UseCopy(cache, slot);
      } else {
        StoreCopy(doc, cache, slot);
      }
    }

    method Perform() returns (ok: bool)
      requires Untouched() && mode == TIDY
      modifies this`mode, this`outbuf, this`cacheObject, this`bTidied, inStream
      modifies if inStream.cache.Some? then {inStream.cache.value} else {}, handler`HttpCache, handler`live,
        handler`made
      ensures ok <==> promise.Some?
      ensures !ok ==> mode == TIDY && !bTidied && Calm(handler, sURL, rows)
      ensures fTotalBytesRead == 0 && bUseCache == old(bUseCache) && handler.OnlyNew()
      ensures ok ==> Tidied() && Settled() && (mode == CACHED ==> inStream.cache == Some(cacheObject))
      ensures |handler.Loose()| == |old(handler.Loose())| + if ok && !HasStored(Contents(rows), sURL)
        && !old(bUseCache) then 1 else 0
    {
      var doc := TakeIn();
      if doc.None? {
        return false;
      }
      Produce(doc.value, inStream.cache);
      return true;
    }

    /** The source is handed through as it is. */
    ghost predicate Passing()
      reads this`mode, this`fTotalBytesRead, inStream, if inStream.cache.Some? then {inStream.cache.value} else {}
    {
      mode == PASSTROUGH && inStream.Valid() && promise == inStream.whole && fTotalBytesRead == inStream.fTotalBytesRead
    }

    /** readBytes from the tidied document. */
    method GiveOut(toFill: array<byte>, maxToRead: nat) returns (fBytes: nat)
      requires Tidied() && mode == TIDY && maxToRead <= toFill.Length
      modifies this`fTotalBytesRead, toFill
      ensures Tidied() && fTotalBytesRead == old(fTotalBytesRead) + fBytes <= |promise.value|
      ensures fBytes == Min(maxToRead, |promise.value| - old(fTotalBytesRead))
      ensures toFill[..fBytes] == promise.value[old(fTotalBytesRead)..old(fTotalBytesRead) + fBytes]
    {
      fBytes := Min(maxToRead, |outbuf| - fTotalBytesRead);
      Overwrite(toFill, 0, fBytes, outbuf[fTotalBytesRead..fTotalBytesRead + fBytes]);
      assert toFill[0..fBytes] == toFill[..fBytes];
      fTotalBytesRead := fTotalBytesRead + fBytes;
    }

    /** readBytes from the cached copy. */
    method GiveCopy(toFill: array<byte>, maxToRead: nat) returns (fBytes: nat)
      requires Tidied() && mode == CACHED && cacheObject != null && maxToRead <= toFill.Length
      modifies this`fTotalBytesRead, cacheObject, toFill
      ensures Tidied() && fTotalBytesRead == old(fTotalBytesRead) + fBytes <= |promise.value|
      ensures fBytes == Min(maxToRead, |promise.value| - old(fTotalBytesRead))
      ensures toFill[..fBytes] == promise.value[old(fTotalBytesRead)..old(fTotalBytesRead) + fBytes]
    {
      fBytes := ReadPlaying(cacheObject, promise.value, fTotalBytesRead, TagsAt(true, sURL, rows), toFill, maxToRead);
      fTotalBytesRead := fTotalBytesRead + fBytes;
    }

    /** readBytes, once there is no need of Perform. */
    method GiveTidied(toFill: array<byte>, maxToRead: nat) returns (fBytes: nat)
      requires Tidied() && maxToRead <= toFill.Length
      modifies this`fTotalBytesRead, if mode == CACHED && cacheObject != null then {cacheObject} else {}, toFill
      ensures Tidied() && fTotalBytesRead == old(fTotalBytesRead) + fBytes <= |promise.value|
      ensures fBytes == Min(maxToRead, |promise.value| - old(fTotalBytesRead))
      ensures toFill[..fBytes] == promise.value[old(fTotalBytesRead)..old(fTotalBytesRead) + fBytes]
    {
      if mode == TIDY {
        fBytes := GiveOut(toFill, maxToRead);
      } else {
        fBytes := GiveCopy(toFill, maxToRead);
      }
    }

    method GiveOutFirst(toFill: array<byte>, maxToRead: nat) returns (fBytes: nat)
      requires Tidied() && mode == TIDY && Settled() && fTotalBytesRead == 0 && maxToRead <= toFill.Length
      modifies this`fTotalBytesRead, toFill
      ensures Tidied() && Settled()
      ensures fTotalBytesRead == fBytes == Min(maxToRead, |promise.value|)
        && toFill[..fBytes] == promise.value[0..fBytes]
      ensures |handler.Loose()| == |old(handler.Loose())|
      ensures handler.made == old(handler.made)
    {
      fBytes := GiveOut(toFill, maxToRead);
    }

    method GiveCopyFirst(toFill: array<byte>, maxToRead: nat) returns (fBytes: nat)
      requires Tidied() && mode == CACHED && cacheObject != null && Settled() && fTotalBytesRead == 0
        && maxToRead <= toFill.Length
      modifies this`fTotalBytesRead, cacheObject, toFill
      ensures Tidied() && Settled()
      ensures fTotalBytesRead == fBytes == Min(maxToRead, |promise.value|)
        && toFill[..fBytes] == promise.value[0..fBytes]
      ensures |handler.Loose()| == |old(handler.Loose())|
      ensures handler.made == old(handler.made)
    {
      fBytes := GiveCopy(toFill, maxToRead);
    }

    method GiveFirst(toFill: array<byte>, maxToRead: nat) returns (fBytes: nat)
      requires Tidied() && Settled() && fTotalBytesRead == 0 && maxToRead <= toFill.Length
      modifies this`fTotalBytesRead, if mode == CACHED && cacheObject != null then {cacheObject} else {}, toFill
      ensures Tidied() && Settled()
      ensures fTotalBytesRead == fBytes == Min(maxToRead, |promise.value|)
        && toFill[..fBytes] == promise.value[0..fBytes]
      ensures |handler.Loose()| == |old(handler.Loose())|
      ensures mode == old(mode) && cacheObject == old(cacheObject) && bUseCache == old(bUseCache)
      ensures handler.made == old(handler.made)
    {
      if mode == TIDY {
        fBytes := GiveOutFirst(toFill, maxToRead);
      } else {
        fBytes := GiveCopyFirst(toFill, maxToRead);
      }
    }

    /** readBytes from the source. */
    method GivePassed(toFill: array<byte>, maxToRead: nat) returns (r: Option<nat>)
      requires Passing() && maxToRead <= toFill.Length
      modifies this`fTotalBytesRead, inStream, if inStream.cache.Some? then {inStream.cache.value} else {}, toFill
      ensures Passing() && (r.None? <==> promise.None?)
      ensures r.Some? ==>
        && fTotalBytesRead == old(fTotalBytesRead) + r.value <= |promise.value|
        && r.value == Min(maxToRead, |promise.value| - old(fTotalBytesRead))
        && toFill[..r.value] == promise.value[old(fTotalBytesRead)..old(fTotalBytesRead) + r.value]
    {
      r := inStream.ReadBytes(toFill, maxToRead);
      if r.Some? {
        fTotalBytesRead := fTotalBytesRead + r.value;
      }
    }

    /** The first readBytes of a stream that tidies. */
    method FirstRead(toFill: array<byte>, maxToRead: nat) returns (r: Option<nat>)
      requires Untouched() && mode == TIDY && maxToRead <= toFill.Length
      modifies this, inStream, handler, if inStream.cache.Some? then {inStream.cache.value} else {}, toFill
      ensures r.None? <==> promise.None?
      ensures r.None? ==> mode == TIDY && !bTidied && Calm(handler, sURL, rows)
      ensures r.Some? ==> Tidied() && Settled() && (mode == CACHED ==> inStream.cache == Some(cacheObject))
      ensures r.Some? ==>
        fTotalBytesRead == r.value == Min(maxToRead, |promise.value|) && toFill[..r.value] == promise.value[0..r.value]
      ensures bUseCache == old(bUseCache) && handler.OnlyNew()
      ensures |handler.Loose()| == |old(handler.Loose())| + if r.Some? && !HasStored(Contents(rows), sURL)
        && !old(bUseCache) then 1 else 0
    {
      var ok := Perform();
      if !ok {
        return None;
      }
      var fBytes := GiveFirst(toFill, maxToRead);
      r := Some(fBytes);
    }
  }

  /** A new object that is not handed to the index changes nothing there. */
  lemma {:induction false} StillThere(entries: seq<Entry>, url: string, cache: CacheObject, slot: Slot)
    requires Kept(entries, slot.others, slot.rows) && Ordered(entries)
    requires Placed(entries, slot.others, url, cache, false, Nothing, slot.rows)
    ensures Kept(entries, set e | e in entries :: e.item, Listing(entries))
    ensures Contents(Listing(entries)) == Contents(slot.rows)
  {
    ListingsAgree(entries, slot.rows, entries, slot.others);
    UnaddedKeeps(entries, slot.rows, Listing(entries), slot.others, url, cache, Nothing, NO_TAGS);
    forall i | 0 <= i < |entries|
      ensures Holds(entries[i].item, Listing(entries)[i])
    {
      assert entries[i] in entries && Holds(entries[i].item, slot.rows[i]);
    }
  }

  // ---- XmlReader::parse ------------------------------------------------

  /** Any other source, for instance an HttpStream: non-empty reads of any size up to the buffer's, then nothing. */
  class ScriptedStream {
    var pieces: seq<seq<byte>>

    ghost predicate Valid()
      reads this
    {
      forall p | p in pieces :: 0 < |p| <= BUFSIZE
    }

    method ReadBytes(toFill: array<byte>) returns (n: nat)
      requires Valid() && toFill.Length == BUFSIZE
      modifies this, toFill
      ensures Valid() && n <= toFill.Length && toFill[..n] == (if old(pieces) == [] then [] else old(pieces)[0])
      ensures pieces == if old(pieces) == [] then [] else old(pieces)[1..]
    {
      n := 0;
      if pieces != [] {
        assert pieces[0] in pieces;
        n := |pieces[0]|;
        Overwrite(toFill, 0, n, pieces[0]);
        assert toFill[0..n] == toFill[..n];
        pieces := pieces[1..];
      }
    }
  }

  datatype InputStream = FromFile(file: FileStream) | FromTidy(tidy: TidyStream) | FromScript(script: ScriptedStream)

  ghost function Self(input: InputStream): set<object> {
    match input
    case FromFile(file) => {file}
    case FromTidy(tidy) => {tidy}
    case FromScript(script) => {script}
  }

  /** What a stream changes when it is read, once it need not tidy. */
  ghost function Footprint(input: InputStream): (r: set<object>)
    reads Self(input)
  {
    match input
    case FromFile(file) => {file} + if file.cache.Some? then {file.cache.value} else {}
    case FromTidy(tidy) =>
      {tidy} + (if tidy.mode == CACHED && tidy.cacheObject != null then {tidy.cacheObject} else {})
      + (if tidy.mode == PASSTROUGH then {tidy.inStream} else {})
      + (if tidy.mode == PASSTROUGH && tidy.inStream.cache.Some? then {tidy.inStream.cache.value} else {})
    case FromScript(script) => {script}
  }

  /** What reading a stream does not change. */
  datatype Setting = Plain | Tidying(mode: TidyMode, cacheObject: CacheObject?, useCache: bool)

  ghost function SettingOf(input: InputStream): Setting
    reads Self(input)
  {
    match input
    case FromTidy(tidy) => Tidying(tidy.mode, tidy.cacheObject, tidy.bUseCache)
    case _ => Plain
  }

  /** The stream is open, and need not tidy any more. */
  ghost predicate Giving(input: InputStream)
    reads Self(input), Footprint(input)
  {
    match input
    case FromFile(file) => file.Valid()
    case FromTidy(tidy) => if tidy.mode == PASSTROUGH then tidy.Passing() else tidy.Tidied()
    case FromScript(script) => script.Valid()
  }

  function Rest(data: Option<seq<byte>>, at: nat): Option<seq<seq<byte>>> {
    if data.Some? then (if at <= |data.value| then Some(FullReads(data.value[at..])) else Some([])) else None
  }

  /** The reads to come, if reading does not fail. */
  ghost function Pending(input: InputStream): Option<seq<seq<byte>>>
    reads Self(input)
  {
    match input
    case FromFile(file) => Rest(file.whole, file.fTotalBytesRead)
    case FromTidy(tidy) => Rest(tidy.promise, tidy.fTotalBytesRead)
    case FromScript(script) => Some(script.pieces)
  }

  /** A full read is the next of the reads to come. */
  lemma {:induction false} RestStep(data: seq<byte>, at: nat, n: nat)
    requires at <= |data| && n == Min(BUFSIZE, |data| - at)
    ensures var p := Rest(Some(data), at).value;
      && data[at..at + n] == (if p == [] then [] else p[0])
      && Rest(Some(data), at + n) == Some(if p == [] then [] else p[1..])
  {
    assert data[at..][..n] == data[at..at + n] && data[at..][n..] == data[at + n..];
  }

  /** What a read of n bytes into the buffer does to the reads to come. */
  predicate NextRead(before: Option<seq<seq<byte>>>, r: Option<seq<byte>>, after: Option<seq<seq<byte>>>) {
    match before
    case None => r == None
    case Some(p) => r == Some(if p == [] then [] else p[0]) && after == Some(if p == [] then [] else p[1..])
  }

  method NextOfFile(file: FileStream, buffer: array<byte>) returns (r: Option<nat>)
    requires file.Valid() && buffer.Length == BUFSIZE
    modifies file, buffer, if file.cache.Some? then {file.cache.value} else {}
    ensures file.Valid() && (r.Some? ==> r.value <= BUFSIZE)
    ensures NextRead(Rest(file.whole, old(file.fTotalBytesRead)), if r.None? then None else Some(buffer[..r.value]),
                     Rest(file.whole, file.fTotalBytesRead))
  {
    ghost var at := file.fTotalBytesRead;
    r := file.ReadBytes(buffer, BUFSIZE);
    if r.Some? {
      RestStep(file.whole.value, at, r.value);
    }
  }

  method NextOfTidy(tidy: TidyStream, buffer: array<byte>) returns (r: Option<nat>)
    requires (if tidy.mode == PASSTROUGH then tidy.Passing() else tidy.Tidied()) && buffer.Length == BUFSIZE
    modifies tidy`fTotalBytesRead, if tidy.mode == CACHED
      && tidy.cacheObject != null then {tidy.cacheObject} else {}, buffer
    modifies if tidy.mode == PASSTROUGH then {tidy.inStream} else {}
    modifies if tidy.mode == PASSTROUGH && tidy.inStream.cache.Some? then {tidy.inStream.cache.value} else {}
    ensures (if tidy.mode == PASSTROUGH then tidy.Passing() else tidy.Tidied()) && (r.Some? ==> r.value <= BUFSIZE)
    ensures NextRead(Rest(tidy.promise, old(tidy.fTotalBytesRead)), if r.None? then None else Some(buffer[..r.value]),
                     Rest(tidy.promise, tidy.fTotalBytesRead))
  {
    ghost var at := tidy.fTotalBytesRead;
    if tidy.mode == PASSTROUGH {
      r := tidy.GivePassed(buffer, BUFSIZE);
    } else {
      var n := tidy.GiveTidied(buffer, BUFSIZE);
      r := Some(n);
    }
    if r.Some? {
      RestStep(tidy.promise.value, at, r.value);
    }
  }

  /** readBytes on a stream that need not tidy. */
  method ReadNext(input: InputStream, buffer: array<byte>) returns (r: Option<nat>)
    requires Giving(input) && buffer.Length == BUFSIZE
    modifies Footprint(input), buffer
    ensures Giving(input) && SettingOf(input) == old(SettingOf(input)) && (r.Some? ==> r.value <= BUFSIZE)
    ensures NextRead(old(Pending(input)), if r.None? then None else Some(buffer[..r.value]), Pending(input))
  {
    match input {
      case FromFile(file) =>
        r := NextOfFile(file, buffer);
      case FromTidy(tidy) =>
        r := NextOfTidy(tidy, buffer);
      case FromScript(script) =>
        var n := script.ReadBytes(buffer);
        r := Some(n);
    }
  }

  /**
   The rest of one turn of the loop, after a read of n bytes: the mark is cut off in place, and what
   is left goes to the parser.
   */
  method Digest(buffer: array<byte>, n: nat, look: bool, fed: seq<seq<byte>>, parser: Parser)
    returns (n': nat, look': bool, fed': seq<seq<byte>>, ok: bool)
    requires n <= buffer.Length
    modifies buffer
    ensures var c := Unmarked(old(buffer[..n]), look);
      && n' == |c| && look' == (look && n < 3)
      && fed' == (if c == [] then fed else fed + [c]) && ok == (c == [] || !parser.rejects(fed'))
  {
    n', look', fed', ok := n, look, fed, true;
    ghost var read := buffer[..n];
    if look && n >= 3 {
      look' := false;
      assert BOM <= read <==> read[0] == 0xEF && read[1] == 0xBB && read[2] == 0xBF;
      if buffer[0] == 0xEF && buffer[1] == 0xBB && buffer[2] == 0xBF {
        forall k | 0 <= k < n - 3 {
          buffer[k] := buffer[k + 3];
        }
        n' := n - 3;
        assert buffer[..n'] == read[3..];
      }
    }
    if n' > 0 {
      fed' := fed + [buffer[..n']];
      ok := !parser.rejects(fed');
    }
  }

  /** The same, beside a stream. */
  method DigestFor(input: InputStream, buffer: array<byte>, n: nat, look: bool, fed: seq<seq<byte>>, parser: Parser)
    returns (n': nat, look': bool, fed': seq<seq<byte>>, ok: bool)
    requires n <= buffer.Length && Giving(input)
    modifies buffer
    ensures var c := Unmarked(old(buffer[..n]), look);
      && n' == |c| && look' == (look && n < 3)
      && fed' == (if c == [] then fed else fed + [c]) && ok == (c == [] || !parser.rejects(fed'))
    ensures Giving(input) && SettingOf(input) == old(SettingOf(input)) && Pending(input) == old(Pending(input))
  {
    n', look', fed', ok := Digest(buffer, n, look, fed, parser);
  }

  /** The loop of parse, from a turn on at which the stream need not tidy. */
  method ParseLoop(input: InputStream, buffer: array<byte>, look: bool, fed: seq<seq<byte>>, parser: Parser)
    returns (r: Parsed)
    requires Giving(input) && buffer.Length == BUFSIZE
    modifies Footprint(input), buffer
    ensures Giving(input) && SettingOf(input) == old(SettingOf(input))
    ensures r == match old(Pending(input))
                 case None => Parsed(fed, false)
                 case Some(p) => Feeding(p, look, fed, parser)
  {
    var bytes_read, parseByteOrderMark, soFar := 1, look, fed;
    while bytes_read > 0
      invariant Giving(input) && SettingOf(input) == old(SettingOf(input))
      invariant Pending(input).None? == old(Pending(input)).None?
      invariant Pending(input).None? ==> bytes_read > 0 && soFar == fed
      invariant Pending(input).Some? ==>
        Feeding(old(Pending(input)).value, look, fed, parser)
        == if bytes_read > 0 then Feeding(Pending(input).value, parseByteOrderMark, soFar, parser)
           else Parsed(soFar, !parser.complains(soFar))
      decreases if Pending(input).Some? then |Pending(input).value| else 0, bytes_read
    {
      var got := ReadNext(input, buffer);
      if got.None? {
        return Parsed(soFar, false);
      }
      var ok;
      bytes_read, parseByteOrderMark, soFar, ok := DigestFor(input, buffer, got.value, parseByteOrderMark, soFar,
        parser);
      if !ok {
        return Parsed(soFar, false);
      }
    }
    r := Parsed(soFar, !parser.complains(soFar));
  }

  // ---- XmlReader::parseHtml ------------------------------------------------

  /** What newStream without tidy gives: the cached copy, or the file. */
  ghost function Source(a: map<string, Content>, url: string, disk: Option<seq<byte>>): Option<seq<byte>> {
    if HasStored(a, url) then Some(a[url].data) else disk
  }

  /** What newStream with tidy gives. */
  ghost function TidySource(a: map<string, Content>, url: string, disk: Option<seq<byte>>,
      tidy: seq<byte> -> seq<byte>): Option<seq<byte>>
    requires |url| < SIZE_T - 1
  {
    if HasStored(a, url) || PassesThrough(url) || disk.None? then Source(a, url, disk) else Some(tidy(disk.value))
  }

  /** A pass over data that is given in full reads; None cannot be read. */
  function ParseOf(data: Option<seq<byte>>, parser: Parser): Parsed {
    match data
    case None => Parsed([], false)
    case Some(d) => Feeding(FullReads(d), true, [], parser)
  }

  lemma {:induction false} RestAll(data: Option<seq<byte>>)
    ensures data.Some? ==> Rest(data, 0) == Some(FullReads(data.value))
  {
    if data.Some? {
      assert data.value[0..] == data.value;
    }
  }

  /** new DataSource(uri), parse, delete. */
  method PassFile(handler: DataStreamHandler, url: string, disk: Option<seq<byte>>, parser: Parser,
      ghost rows: seq<Cached>)
    returns (r: Parsed)
    requires Calm(handler, url, rows)
    modifies handler.made
    ensures Calm(handler, url, rows) && r == ParseOf(Source(Contents(rows), url, disk), parser)
    ensures handler.made == old(handler.made)
  {
    var file := OpenFile(handler, url, disk, rows);
    var buffer := new byte[BUFSIZE];
    RestAll(file.whole);
    r := ParseLoop(FromFile(file), buffer, true, [], parser);
    CloseFile(handler, file, url, rows);
  }

  /** A tidied stream keeps the index as it is. */
  ghost predicate StillSettled(tidy: TidyStream, useCache: bool, mode: TidyMode, cache: CacheObject?,
      loose: set<CacheObject>)
    reads tidy, tidy.handler, tidy.handler.Items(), if tidy.mode == CACHED
      && tidy.cacheObject != null then {tidy.cacheObject} else {}
  {
    && tidy.Tidied() && tidy.Settled() && tidy.bUseCache == useCache && tidy.mode == mode && tidy.cacheObject == cache
    && tidy.handler.Loose() == loose
  }

  /** The turns after the first, for a stream that has tidied. */
  method LoopTidied(tidy: TidyStream, buffer: array<byte>, look: bool, fed: seq<seq<byte>>,
      parser: Parser) returns (r: Parsed)
    requires tidy.Tidied() && buffer.Length == BUFSIZE
    modifies tidy, if tidy.mode == CACHED && tidy.cacheObject != null then {tidy.cacheObject} else {}, buffer
    ensures tidy.Tidied() && tidy.mode == old(tidy.mode)
    ensures tidy.cacheObject == old(tidy.cacheObject) && tidy.bUseCache == old(tidy.bUseCache)
    ensures r == Feeding(FullReads(tidy.promise.value[old(tidy.fTotalBytesRead)..]), look, fed, parser)
  {
    ghost var setting := Tidying(tidy.mode, tidy.cacheObject, tidy.bUseCache);
    assert SettingOf(FromTidy(tidy)) == setting;
    r := ParseLoop(FromTidy(tidy), buffer, look, fed, parser);
    assert SettingOf(FromTidy(tidy)) == Tidying(tidy.mode, tidy.cacheObject, tidy.bUseCache) == setting;
  }

  method ParseOn(tidy: TidyStream, buffer: array<byte>, look: bool, fed: seq<seq<byte>>,
      parser: Parser) returns (r: Parsed)
    requires tidy.Tidied() && tidy.Settled() && buffer.Length == BUFSIZE
    modifies tidy, if tidy.mode == CACHED && tidy.cacheObject != null then {tidy.cacheObject} else {}, buffer
    ensures StillSettled(tidy, old(tidy.bUseCache), old(tidy.mode), old(tidy.cacheObject), old(tidy.handler.Loose()))
    ensures r == Feeding(FullReads(tidy.promise.value[old(tidy.fTotalBytesRead)..]), look, fed, parser)
    ensures tidy.handler.made == old(tidy.handler.made)
  {
    r := LoopTidied(tidy, buffer, look, fed, parser);
  }

  /** The first turn of the loop. */
  lemma {:induction false} FirstTurn(data: seq<byte>, n: nat, parser: Parser)
    requires n == Min(BUFSIZE, |data|)
    ensures var c := Unmarked(data[..n], true);
      ParseOf(Some(data), parser) ==
        if c == [] then Parsed([], !parser.complains([]))
        else if parser.rejects([c]) then Parsed([c], false)
        else Feeding(FullReads(data[n..]), n < 3, [c], parser)
  {
    if data != [] {
      var rest := FullReads(data[n..]);
      assert ([data[..n]] + rest)[1..] == rest && [] + [Unmarked(data[..n], true)] == [Unmarked(data[..n], true)];
    }
  }

  method DigestBeside(buffer: array<byte>, n: nat, parser: Parser, ghost tidy: TidyStream)
    returns (n': nat, look': bool, fed': seq<seq<byte>>, ok: bool)
    requires n <= buffer.Length && tidy.Tidied() && tidy.Settled()
    modifies buffer
    ensures var c := Unmarked(old(buffer[..n]), true);
      && n' == |c| && look' == (n < 3)
      && fed' == (if c == [] then [] else [c]) && ok == (c == [] || !parser.rejects(fed'))
    ensures StillSettled(tidy, old(tidy.bUseCache), old(tidy.mode), old(tidy.cacheObject), old(tidy.handler.Loose()))
    ensures tidy.handler.made == old(tidy.handler.made)
  {
    n', look', fed', ok := Digest(buffer, n, true, [], parser);
  }

  /** From the end of the first read on. */
  method ParseFrom(tidy: TidyStream, buffer: array<byte>, n: nat, parser: Parser) returns (r: Parsed)
    requires tidy.Tidied() && tidy.Settled() && buffer.Length == BUFSIZE
    requires tidy.fTotalBytesRead == n == Min(BUFSIZE, |tidy.promise.value|) && buffer[..n] == tidy.promise.value[0..n]
    modifies tidy, if tidy.mode == CACHED && tidy.cacheObject != null then {tidy.cacheObject} else {}, buffer
    ensures StillSettled(tidy, old(tidy.bUseCache), old(tidy.mode), old(tidy.cacheObject), old(tidy.handler.Loose()))
    ensures r == ParseOf(tidy.promise, parser)
    ensures tidy.handler.made == old(tidy.handler.made)
  {
    FirstTurn(tidy.promise.value, n, parser);
    var n', look, fed, ok := DigestBeside(buffer, n, parser, tidy);
    r := Parsed(fed, ok && !parser.complains(fed));
    if ok && n' > 0 {
      r := ParseOn(tidy, buffer, look, fed, parser);
    }
  }

  /** char buffer[bufsize] */
  method NewBuffer() returns (buffer: array<byte>)
    ensures fresh(buffer) && buffer.Length == BUFSIZE
  {
    buffer := new byte[BUFSIZE];
  }

  /** parse on a new stream that tidies: the first turn of the loop, then the others. */
  method ParseTidied(tidy: TidyStream, buffer: array<byte>, parser: Parser) returns (r: Parsed)
    requires tidy.Untouched() && tidy.mode == TIDY && buffer.Length == BUFSIZE
    modifies buffer, tidy, tidy.inStream, tidy.handler,
      if tidy.inStream.cache.Some? then {tidy.inStream.cache.value} else {}
    ensures r == ParseOf(tidy.promise, parser) && tidy.bUseCache == old(tidy.bUseCache)
    ensures tidy.promise.None? ==> tidy.mode == TIDY && !tidy.bTidied && Calm(tidy.handler, tidy.sURL, tidy.rows)
    ensures tidy.promise.Some? ==> tidy.Tidied() && tidy.Settled()
    ensures tidy.mode == CACHED ==> tidy.inStream.cache == Some(tidy.cacheObject)
    ensures tidy.handler.OnlyNew()
    ensures |tidy.handler.Loose()| == |old(tidy.handler.Loose())|
      + if tidy.promise.Some? && !HasStored(Contents(tidy.rows), tidy.sURL) && !old(tidy.bUseCache) then 1 else 0
  {
    var got := tidy.FirstRead(buffer, BUFSIZE);
    if got.None? {
      return Parsed([], false);
    }
    r := ParseFrom(tidy, buffer, got.value, parser);
  }

  /** delete of a stream that tidies: a copy in the cache is rewound. */
  method CloseTidied(tidy: TidyStream, ghost useCache: bool) returns (ghost rows: seq<Cached>)
    requires if tidy.promise.Some? then tidy.Tidied() && tidy.Settled()
             else tidy.mode == TIDY && Calm(tidy.handler, tidy.sURL, tidy.rows)
    requires tidy.bUseCache == useCache
    requires HasStored(Contents(tidy.rows), tidy.sURL) ==> tidy.promise == Some(Contents(tidy.rows)[tidy.sURL].data)
    modifies if tidy.mode == CACHED && tidy.cacheObject != null then {tidy.cacheObject} else {}
    ensures Calm(tidy.handler, tidy.sURL, rows) && |tidy.handler.Loose()| == |old(tidy.handler.Loose())|
    ensures if tidy.promise.None? || HasStored(Contents(tidy.rows), tidy.sURL) then rows == tidy.rows
            else if useCache then TidiedCopy(Contents(tidy.rows), tidy.sURL, tidy.promise.value, Contents(rows))
            else Contents(rows) == Contents(tidy.rows)
    ensures tidy.handler.made == old(tidy.handler.made)
  {
    rows := if tidy.promise.None? then tidy.rows else Listing(tidy.handler.HttpCache);
    if tidy.mode == CACHED {
      rows := tidy.rows;
      tidy.cacheObject.ResetState();
      SameKeys(rows);
      Rewound(tidy.handler, tidy.sURL, tidy.cacheObject, rows);
    }
  }

  /** Once its copy is finished again, no stream is open on the document. */
  lemma {:induction false} Rewound(handler: DataStreamHandler, url: string, cache: CacheObject, rows: seq<Cached>)
    requires CopyIn(handler, url, Some(cache), rows) && cache.headers.bTidyFlag
    requires url in Contents(rows) && url in Validators(rows)
      && Holds(cache, Cached(url, Contents(rows)[url], Validators(rows)[url]))
    ensures Calm(handler, url, rows)
  {
    KeptMore(handler.HttpCache, handler.Items(), url, cache, rows);
  }

  /** newStream with tidy. */
  method OpenTidy(handler: DataStreamHandler, url: string, disk: Option<seq<byte>>, tidy: seq<byte> -> seq<byte>,
      useCache: bool, ghost rows: seq<Cached>) returns (stream: TidyStream)
    requires Calm(handler, url, rows) && |url| < SIZE_T - 1
    ensures fresh(stream) && fresh(stream.inStream) && stream.Untouched() && stream.bUseCache == useCache
    ensures stream.handler == handler && stream.sURL == url && stream.rows == rows
    ensures stream.mode == (if PassesThrough(url) then PASSTROUGH else TIDY)
    ensures stream.promise == TidySource(Contents(rows), url, disk, tidy)
    ensures stream.inStream.cache.Some? <==> HasStored(Contents(rows), url)
    ensures stream.inStream.cache.Some? ==> stream.inStream.cache.value in handler.made
    ensures handler.made == old(handler.made)
  {
    var file := OpenFile(handler, url, disk, rows);
    if file.cache.Some? {
      assert Entry(url, file.cache.value) in handler.HttpCache;
    }
    stream := new TidyStream(url, file, handler, tidy, rows);
    stream.UseCache(useCache);
  }

  /** A whole pass on a stream that hands its source through. */
  method PassThroughTidy(stream: TidyStream, parser: Parser) returns (r: Parsed)
    requires stream.Untouched() && stream.mode == PASSTROUGH
    modifies stream, stream.inStream, if stream.inStream.cache.Some? then {stream.inStream.cache.value} else {}
    ensures Calm(stream.handler, stream.sURL, stream.rows) && r == ParseOf(stream.promise, parser)
    ensures |stream.handler.Loose()| == |old(stream.handler.Loose())|
    ensures stream.handler.made == old(stream.handler.made)
  {
    var buffer := new byte[BUFSIZE];
    RestAll(stream.promise);
    ghost var loose := stream.handler.Loose();
    r := ParseLoop(FromTidy(stream), buffer, true, [], parser);
    assert stream.handler.Loose() == loose;
    CloseFile(stream.handler, stream.inStream, stream.sURL, stream.rows);
  }

  /** A whole pass on a stream that tidies. */
  method PassTidied(stream: TidyStream, buffer: array<byte>, parser: Parser) returns (r: Parsed,
      ghost rows: seq<Cached>)
    requires stream.Untouched() && stream.mode == TIDY && buffer.Length == BUFSIZE
    requires HasStored(Contents(stream.rows), stream.sURL) ==>
      stream.promise == Some(Contents(stream.rows)[stream.sURL].data)
    modifies buffer, stream, stream.inStream, stream.handler
    modifies if stream.inStream.cache.Some? then {stream.inStream.cache.value} else {}
    ensures Calm(stream.handler, stream.sURL, rows) && r == ParseOf(stream.promise, parser)
    ensures stream.handler.OnlyNew()
    ensures if stream.promise.None? || HasStored(Contents(stream.rows), stream.sURL) then rows == stream.rows
            else if old(stream.bUseCache) then TidiedCopy(Contents(stream.rows), stream.sURL, stream.promise.value,
              Contents(rows))
            else Contents(rows) == Contents(stream.rows)
    ensures |stream.handler.Loose()| == |old(stream.handler.Loose())|
      + if stream.promise.Some? && !HasStored(Contents(stream.rows), stream.sURL)
        && !old(stream.bUseCache) then 1 else 0
  {
    ghost var useCache := stream.bUseCache;
    r := ParseTidied(stream, buffer, parser);
    rows := CloseTidied(stream, useCache);
  }

  /** What is cached after a tidied pass. */
  ghost predicate AfterTidy(a: map<string, Content>, url: string, disk: Option<seq<byte>>, tidy: seq<byte> -> seq<byte>,
      useCache: bool, b: map<string, Content>)
    requires |url| < SIZE_T - 1
  {
    if HasStored(a, url) || PassesThrough(url) || disk.None? || !useCache then b == a
    else TidiedCopy(a, url, tidy(disk.value), b)
  }

  /** A tidied pass makes a copy that nobody holds. */
  predicate LosesCopy(known: bool, url: string, disk: Option<seq<byte>>, useCache: bool)
    requires |url| < SIZE_T - 1
  {
    !known && !PassesThrough(url) && disk.Some? && !useCache
  }

  /** new DataSource(uri, true), parse, delete. */
  method PassTidy(handler: DataStreamHandler, url: string, disk: Option<seq<byte>>, tidy: seq<byte> -> seq<byte>,
      useCache: bool, buffer: array<byte>, parser: Parser, ghost rows: seq<Cached>)
    returns (r: Parsed, ghost rows': seq<Cached>)
    requires Calm(handler, url, rows) && |url| < SIZE_T - 1 && buffer.Length == BUFSIZE
    modifies handler, handler.made, buffer
    ensures handler.OnlyNew()
    ensures Calm(handler, url, rows') && r == ParseOf(TidySource(Contents(rows), url, disk, tidy), parser)
    ensures AfterTidy(Contents(rows), url, disk, tidy, useCache, Contents(rows'))
    ensures |handler.Loose()| == |old(handler.Loose())| + if LosesCopy(HasStored(Contents(rows), url), url, disk,
      useCache) then 1 else 0
  {
    var stream := OpenTidy(handler, url, disk, tidy, useCache, rows);
    if stream.mode == PASSTROUGH {
      r := PassThroughTidy(stream, parser);
      rows' := rows;
    } else {
      r, rows' := PassTidied(stream, buffer, parser);
    }
  }

  /** What parseHtml returns, with what its passes have fed; a pass that was not made has fed nothing. */
  datatype Html = Html(ok: bool, raw: Parsed, tidied: Option<Parsed>, last: Option<Parsed>)

  /** The pass that accepted the document. */
  function Accepted(h: Html): Parsed {
    if h.tidied.Some? then h.tidied.value else h.raw
  }

  /** What the accepting pass read. */
  ghost function Seen(h: Html, a: map<string, Content>, url: string, disk: Option<seq<byte>>,
      tidy: seq<byte> -> seq<byte>): Option<seq<byte>>
    requires |url| < SIZE_T - 1
  {
    if h.tidied.Some? then TidySource(a, url, disk, tidy) else Source(a, url, disk)
  }

  /** What the last pass reads. */
  ghost function Shown(h: Html, a: map<string, Content>, url: string, disk: Option<seq<byte>>,
      tidy: seq<byte> -> seq<byte>, useCache: bool): Option<seq<byte>>
    requires |url| < SIZE_T - 1
  {
    if h.tidied.Some? && useCache && !IsStuck(a, url) then TidySource(a, url, disk, tidy) else Source(a, url, disk)
  }

  /** The tidied copy is what the last pass finds, unless it was not cached. */
  lemma {:induction false} CopyIsShown(a: map<string, Content>, url: string, disk: Option<seq<byte>>,
      tidy: seq<byte> -> seq<byte>, useCache: bool, b: map<string, Content>)
    requires |url| < SIZE_T - 1 && AfterTidy(a, url, disk, tidy, useCache, b)
    ensures Source(b, url, disk) ==
      if useCache && !IsStuck(a, url) then TidySource(a, url, disk, tidy) else Source(a, url, disk)
  {
  }

  /**
   parseHtml: a pass to see whether the document is accepted, if not a pass on the tidied document,
   and then a pass for the content handler, which opens the document without tidy again.
   */
  method ParseHtml(handler: DataStreamHandler, url: string, disk: Option<seq<byte>>, tidy: seq<byte> -> seq<byte>,
      useCache: bool, first: Parser, second: Parser, last: Parser, handlerOk: bool, ghost rows: seq<Cached>)
    returns (h: Html, ghost rows': seq<Cached>)
    requires Calm(handler, url, rows) && |url| < SIZE_T - 1
    modifies handler, handler.made
    ensures Calm(handler, url, rows')
    ensures h.raw == ParseOf(Source(Contents(rows), url, disk), first)
    ensures h.tidied == if h.raw.ok then None else Some(ParseOf(TidySource(Contents(rows), url, disk, tidy), second))
    ensures h.last.Some? <==> Accepted(h).ok && handlerOk
    ensures h.last.Some? ==> h.last.value == ParseOf(Shown(h, Contents(rows), url, disk, tidy, useCache), last)
    ensures h.ok == (h.last.Some? && h.last.value.ok)
  {
    var raw := PassFile(handler, url, disk, first, rows);
    rows' := rows;
    h := Html(false, raw, None, None);
    if !raw.ok {
      var tidied;
      var buffer := NewBuffer();
      tidied, rows' := PassTidy(handler, url, disk, tidy, useCache, buffer, second, rows);
      CopyIsShown(Contents(rows), url, disk, tidy, useCache, Contents(rows'));
      h := Html(false, raw, Some(tidied), None);
      if !tidied.ok {
        return;
      }
    }
    if handlerOk {
      var shown := PassFile(handler, url, disk, last, rows');
      h := h.(ok := shown.ok, last := Some(shown));
    }
  }

  /** What the last pass reads is what was accepted, except when it was a tidied document that is not in the cache. */
  predicate ShowsAccepted(h: Html, known: bool, stuck: bool, url: string, disk: Option<seq<byte>>,
      tidy: seq<byte> -> seq<byte>, useCache: bool)
    requires |url| < SIZE_T - 1
  {
    || h.tidied.None? || known || PassesThrough(url) || disk.None?
    || (useCache && !stuck) || tidy(disk.value) == disk.value
  }

  /** The exact condition. */
  lemma {:induction false} FallbackExact(h: Html, a: map<string, Content>, url: string, disk: Option<seq<byte>>,
      tidy: seq<byte> -> seq<byte>, useCache: bool)
    requires |url| < SIZE_T - 1
    ensures Shown(h, a, url, disk, tidy, useCache) == Seen(h, a, url, disk, tidy)
       <==> ShowsAccepted(h, HasStored(a, url), IsStuck(a, url), url, disk, tidy, useCache)
  {
  }

  /**
   The HTML fallback. Where that condition holds, the content handler's pass is fed chunk for chunk
   what the accepting pass was fed, or a part of that if its parser rejects a chunk.
   */
  lemma {:induction false} LastPassIsFedTheAccepted(h: Html, a: map<string, Content>, url: string,
      disk: Option<seq<byte>>, tidy: seq<byte> -> seq<byte>, useCache: bool, accepting: Parser, last: Parser)
    requires |url| < SIZE_T - 1 && Accepted(h).ok && h.last.Some?
    requires Accepted(h) == ParseOf(Seen(h, a, url, disk, tidy), accepting)
    requires h.last.value == ParseOf(Shown(h, a, url, disk, tidy, useCache), last)
    requires ShowsAccepted(h, HasStored(a, url), IsStuck(a, url), url, disk, tidy, useCache)
    ensures h.last.value.fed <= Accepted(h).fed
    ensures h.last.value.fed != Accepted(h).fed ==> last.rejects(h.last.value.fed)
    ensures Seen(h, a, url, disk, tidy).Some? && Joined(Accepted(h).fed) == WithoutBom(Seen(h, a, url, disk,
      tidy).value)
  {
    FallbackExact(h, a, url, disk, tidy, useCache);
    var data := Seen(h, a, url, disk, tidy).value;
    FeedingIsPrefix(FullReads(data), true, [], accepting);
    FeedingIsPrefix(FullReads(data), true, [], last);
    FilesLoseBom(data);
    assert [] + Fed(FullReads(data), true) == Fed(FullReads(data), true);
  }
  /** With caching off, a document that tidying changes: the last pass reads what the first one rejected. */
  lemma {:induction false} UncachedIsNotShown(h: Html, url: string, tidy: seq<byte> -> seq<byte>)
    requires h.tidied.Some? && url == "/doc.html" && tidy([1]) == [2]
    ensures Seen(h, map[], url, Some([1]), tidy) == Some([2])
      && Shown(h, map[], url, Some([1]), tidy, false) == Some([1])
  {
    PassesThroughIs(url);
    assert url[|url| - 5] == '.' && url[|url| - 4] == 'h';
    assert url[|url| - 5..][1] == 'h' && ".smil"[1] == 's';
  }

  /**
   A pass succeeds exactly when the document can be read, the parser rejects none of the chunks it
   comes in, and it does not complain at the end.
   */
  lemma {:induction false} PassedExactly(data: Option<seq<byte>>, parser: Parser)
    ensures ParseOf(data, parser).ok <==> data.Some? && Accepts(Fed(FullReads(data.value), true), parser)
  {
    if data.Some? {
      ParseAccepts(FullReads(data.value), parser);
    }
  }

  /** A pass that succeeds has fed the whole document, less its mark. */
  lemma {:induction false} PassedWhole(data: Option<seq<byte>>, parser: Parser)
    requires ParseOf(data, parser).ok
    ensures data.Some? && Joined(ParseOf(data, parser).fed) == WithoutBom(data.value)
  {
    FeedingIsPrefix(FullReads(data.value), true, [], parser);
    FilesLoseBom(data.value);
    assert [] + Fed(FullReads(data.value), true) == Fed(FullReads(data.value), true);
  }

  /**
   When parseHtml succeeds, the content handler has got the text that was accepted, if and only if
   no tidied pass was made, or its copy is in the cache, or tidying changes at most the mark.
   */
  lemma {:induction false} SameTextExactly(h: Html, a: map<string, Content>, url: string, disk: Option<seq<byte>>,
      tidy: seq<byte> -> seq<byte>, useCache: bool, accepting: Parser, last: Parser)
    requires |url| < SIZE_T - 1 && Accepted(h).ok && h.last.Some? && h.last.value.ok
    requires Accepted(h) == ParseOf(Seen(h, a, url, disk, tidy), accepting)
    requires h.last.value == ParseOf(Shown(h, a, url, disk, tidy, useCache), last)
    ensures Joined(h.last.value.fed) == Joined(Accepted(h).fed) <==>
      || h.tidied.None? || HasStored(a, url) || PassesThrough(url)
      || (useCache && !IsStuck(a, url)) || disk.None? || WithoutBom(tidy(disk.value)) == WithoutBom(disk.value)
  {
    PassedWhole(Seen(h, a, url, disk, tidy), accepting);
    PassedWhole(Shown(h, a, url, disk, tidy, useCache), last);
  }
}
