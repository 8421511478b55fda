# Verification of libkolibre-xmlreader

This project models the byte pipeline of libkolibre-xmlreader and proves what its parts promise each
other. Bytes come from a file or from libcurl, are held compressed in a cache of limited size, may be
tidied, lose their byte order mark, and end up as chunks for libxml2, whose start and end tags drive a
stack of reference-counted namespace nodes.

| file | what it models |
|---|---|
| `Bytes.dfy` | bytes, options, sequences |
| `Zlib.dfy` | the laws zlib obeys, as a type of step functions, and a stored-block coder that meets them |
| `CacheObject.dfy` | the cache object: EMPTY, WRITE, FULL, READ around deflate and inflate |
| `RoundTrip.dfy` | whole series of writes and reads on a cache object; the round trip of `tests/cachecheck.cpp` |
| `CacheIndex.dfy` | the map from URLs to cache objects, with BUSY protection and eviction |
| `HttpHeaders.dfy` | header lines and validators |
| `HttpStream.dfy` | the pull reader over push callbacks, with several streams on one multi handle |
| `HttpSession.dfy` | responses, the scripts that play them, and a stream that is alone on its handle |
| `Lifetime.dfy` | one stream from `newStream` to its destructor, as a step of the cache |
| `Runs.dfy` | series of lifetimes from an empty cache |
| `Incidents.dfy` | concrete runs in which something goes wrong |
| `Schedule.dfy` | any schedule of reads on any number of streams |
| `Parsing.dfy` | the read loop of `parse` as a function, and the byte order mark |
| `Documents.dfy` | file streams, tidied streams, the read loop, and the passes of `parseHtml` |
| `RemoteTidy.dfy` | tidied passes and `parseHtml` over documents that come over HTTP |
| `Namespaces.dfy` | the namespace stack |
| `Url.dfy` | taking URLs apart |

libcurl is a script: a series of bursts, each with callbacks for any of the streams, the messages after
it, the response code of each handle, and how many transfers are still running. Theorems about streams
hold for every script. zlib is any record of functions that obeys the laws in `Zlib.dfy`; libtidy is any
total function; the libxml2 parser is any pair of functions of the chunks fed so far.

The sources' classes are classes here, with the same fields, and each method is proved against a
function of the old state. What is proved over runs is stated about those functions.

## Main results

1. *Compressed round trip.* For every coder, every way to split the data into writes and every series of
   reads, what is read is what was written, a read of a positive size gives nothing only at the end, and
   `resetState` starts over (`CompressedRoundTrip` over `CacheObject.WriteBytes` and `ReadBytes`).
2. *Cache transparency.* In every run of lifetimes that do not overlap, with any header lines and any
   bodies, complete or broken off, a finished entry holds what came for the latest lifetime that stored
   something (`RunSessions`, `EntriesAreAnswers`), and a stream that found it and is answered 304 delivers
   that (`RevalidationDelivers`, `RevalidatedForever`). It is the body that was taken last exactly when
   what is stored is that body, in particular when no later lifetime has spoilt the entry, and it is
   known exactly which lifetimes do (`RevalidationIsTransparent`, `SpoilsExactly`); where everything stored
   comes with the code 200 and the length it announces none does (`HonestServersAreTransparent`). An entry
   stops being found exactly when a refresh of it is begun and never reaches the announced length
   (`StuckByAbort`). Redirects and the trailers of a chunked body are outside these runs.
3. *Ownership.* Over the same runs the cached objects are live and pairwise distinct, and every live
   object is cached, but for exactly one lost object for each 304 that a stream hears of which had found
   nothing and stores nothing (`RunSessions`, `NothingLost`, `ConditionalLosesNothing`).
4. *Validators.* The request after a lifetime that stored something carries its entity-tag and its date
   byte for byte exactly when the tag is quoted and neither holds a NUL (`ValidatorsReturn`); and the
   validators of a cached body stay its own exactly as long as no later lines bring others
   (`ValidatorsCurrent`).
5. *Conservation.* For every schedule of reads on any number of streams on one multi handle, downloads
   and revalidations mixed, what libcurl brought for a stream is what it delivered followed by its
   overflow buffer; a read that throws costs the other streams nothing (`RunSchedule`). Each read uses
   exactly the shortest part of the script after which its request is full, an error or a 304 is heard,
   nothing runs any more, or it has bytes and libcurl does not ask to be called again (`ReadBytes`,
   `StopsOnce`), so that bytes are never held back for an error that comes later (`ReadBeforeError`).
6. *Eviction.* What is left is a function of the sizes and flags before: the shortest run of removable
   entries, downward from the largest URL, that meets the budget is gone (`CheckCacheSize`,
   `AddCacheObject`, `EvictionShortest`), where the order is that of `std::string` (`LessIs`,
   `LargestGoFirst`), and the budget is met exactly when what may not go fits into it (`BudgetMetExactly`).
7. *HTML fallback.* What the three passes of `parseHtml` are fed, and exactly when the last pass reads
   what the accepting pass read: for local documents (`ParseHtml`, `FallbackExact`,
   `LastPassIsFedTheAccepted`, `SameTextExactly`) and over HTTP (`RemoteTidy.ParseHtml`,
   `RemoteLastPass`), where the tidy flag is true of a cached copy exactly as long as nothing else is
   stored in it (`FlagLies`), over any series of plain and tidied visits (`RunVisits`).
8. *Byte order mark.* Exactly which read sizes make the loop strip the mark and nothing else
   (`BomExact`, `FilesLoseBom`).
9. *Namespaces.* Counts equal the pointers there are, an end tag frees exactly the nodes of its start tag,
   both ends of an element report the same namespace, and exactly when that is the one the standard asks
   for (`ExactCounts`, `PopFrees`, `HandleElement`, `SameAtBothEnds`, `ReportedAgrees`). The declarations
   are those of the attributes named `xmlns` and `xmlns:p`, in their order (`DeclaredInOrder`,
   `DeclaredIs`), and what a start tag declares last, of what begins its name, is what it is reported in
   (`OwnDeclarationWins`).
10. *URLs.* Exactly when decomposition undoes composition (`PartsComeBack`, `CredentialsAreWhole`).
11. *Refusals.* When no transfer breaks off, a caller who reads on gets an exception exactly for the answers
   with other codes than 0, 200 and 304, whatever comes with them, and which one depends on the code alone
   (`RefusedExactly`, `RunMissing`); in general the first message that is not harmless decides, by the
   stream's own response code (`FirstErrorExactly`, `HeardExactly`). `parse` takes such a pass for a failure
   (`RemoteTidy.ParseHtml`, `MissingThrice`).

## Findings

Places where the code does not do what a reader would expect. Each has an input for which that happens
and the exact condition under which it does.

- **The byte order mark survives short reads.** The mark is looked for in one read only, and a read of
  three bytes that is nothing but the mark leaves 0 bytes, which ends the loop (`src/XmlReader.cpp:797-849`).
  The document comes through less its mark if and only if the first read has at least four bytes, or
  three that are all there is, or the document has at most two (`BomExact`; `BomLeftIn` gives a document
  for all other sizes). Files and finished cache objects always meet the condition (`FilesLoseBom`).
- **Weak and unquoted entity-tags do not come back.** The line-end test in `src/HttpStream.cpp:255`
  compares from the last byte of the line on, where CR LF cannot begin, so three bytes are always cut off,
  and `src/HttpStream.cpp:137-139` always puts quotes around the rest. The value comes back if and only if
  it is quoted and has no NUL (`EtagRoundTrip`, `ValidatorsReturn`); `WeakTagIsMangled` is an input.
- **An ETag line without a tag makes the copied length wrap around.** For an empty value and for a lone
  quote, and for no other, the three or four characters cut off are more than there are, and the length
  becomes the largest `size_t` (`src/HttpStream.cpp:257-261`; `EtagLengthFits`).
- **A 304 behind a line that says 200 empties the entry.** The store flag is set by any header line that
  begins with HTTP and says 200 (`src/HttpStream.cpp:217-233`), such as a proxy's answer to CONNECT, and
  nothing resets it. When the cached document is as long as the 304 announces, reading it to its end sets
  `bTransferFinished`, and the destructor finishes the cache object, in which nothing has been written
  (`src/HttpStream.cpp:72-79`, `src/CacheObject.cpp:220-224`): it holds nothing from then on. What is stored
  is not the body that the caller has if and only if the answer is such a 304, or the caller had as many
  bytes as were announced but not the whole body (`SpoilsExactly`). `RunThroughProxy` is such a run.
- **A refresh can leave an entry stuck.** Over a run, an entry is stuck in the state WRITE if and only if
  some lifetime found it with caching on, was sent a line that says 200 and a body chunk, and after no read
  had as many bytes as were announced, none if nothing was (`StuckByAbort`). Nothing takes it out of that
  state, no later lifetime finds it, and none can replace it (`StuckForever`). In `RunAbortedRefresh` the
  caller stops reading; in `RunChunkedRefresh` the caller has the whole body, of unannounced length.
- **An unsolicited 304 leaks a cache object.** A stream that made a new object and hears of a 304 takes
  the second branch of its destructor (`src/HttpStream.cpp:80-84`), which neither stores nor deletes it.
  Nothing is lost if and only if no stream that had found nothing, and stores nothing, hears of one
  (`NothingLost`), as when only conditional requests are answered 304 (`ConditionalLosesNothing`).
  `RunUnsolicited` loses one.
- **Validators can run ahead of the body.** Header lines update the cached object at once, whatever the
  status. The validators of a cached body are those it was stored with if and only if the last entity-tag
  and the last date that later lifetimes brought, where there are any, repeat them (`ValidatorsCurrent`).
  In `RunGoneAndBack` a 404 with another tag comes in between, and the next request asks for that tag.
- **Caching switched off comes too late.** The switch is set after the request has been made up
  (`src/DataStreamHandler.cpp:264-272`, `src/XmlReader.cpp:764`), so that the request for a cached document
  is conditional all the same, and a 304 gives the caller an empty document (`SwitchedOffGivesNothing`;
  `RunSwitchedOff` is such a run).
- **A read that throws leaves its request open.** `fBytesToRead` is reset at `src/HttpStream.cpp:884` only,
  so after a throw it is what was still missing (`HttpStream.ReadBytes`; positive exactly when the read was
  not full, and `ThrowLeavesRequest` shows 10). Until the handle is removed, a callback would write to a
  buffer that its owner may have given up.
- **With caching off the tidied document is never shown.** The last pass of `parseHtml` opens the document
  without tidy and relies on the tidied copy in the cache. With caching off, or when the entry is stuck, it
  reads the raw file that the first pass rejected; `FallbackExact` and `SameTextExactly` have the
  condition, `UncachedIsNotShown` an input. The copy made with caching off is lost (`StoreCopy`,
  `LosesCopy`).
- **Over HTTP the last pass depends on the answer.** After a tidied pass it gets what that pass was given
  if and only if it is answered 304, with caching on, and finds the copy (or the answer happens to be the
  same bytes); a 200 gives the raw document again (`RemoteLastPass`). In `ResentDocument` the tidied
  document is accepted and the content handler gets the raw one, which was rejected.
- **The tidy flag outlives the tidied copy.** Nothing clears it. What is stored in a flagged entry by a
  later lifetime, or by the source of a tidied pass, is taken for tidied. While an entry stays cached, its
  flag is wrong if and only if that has happened (`FlagLies`). In `ChangedDocument` the second of two
  tidied passes is given the second document untidied, whatever tidy does.
- **A failed source is tidied and cached.** What the source throws is taken for the end of the document
  (`src/TidyStream.cpp:182-188`), so that a tidied pass that finds no flagged copy tidies what came of it, a
  part or nothing. That is cached and flagged, over a good copy too, if and only if the entry is not stuck
  and the source stores something, or it breaks off no refresh and found an entry or caching is on
  (`PartIsCached`). `MissingDocument` and `MissingOverwrites` are answered 404.
- **URLs of four characters are never tidied.** `sURL.length() - 5` wraps around to `npos`, which is what
  `rfind` gives when there is no ".smil" (`src/TidyStream.cpp:47`; `PassesThroughIs`,
  `FourCharactersPassThrough`).
- **Namespace lookup compares leading characters.** An unprefixed `abc` is captured by a declared prefix
  `a` (`PrefixCapturesName`), and a default declaration hides every prefix declared outside it
  (`DefaultHidesPrefix`). `ReportedAgrees` says exactly when the standard's binding is reported.
- **An '@' in a path is taken for the end of the user information**, whatever host stands before it
  (`AtInPathMisleads`). The parts of a URL come back if and only if it has user information, or no '@'
  behind the host, or nothing but an empty login there (`PartsComeBack`).
- **A reason phrase can say 200.** The scan of the status line goes on behind the code, so that a line of
  any code counts as a 200 if and only if its code is 200 or " 200" stands somewhere behind it
  (`src/HttpStream.cpp:217-233`; `StatusSays`, with `PartialIsNotOk` for inputs of both kinds).
- **The entry with the smallest URL is never evicted**, however large it is (`EvictionSafe`). The budget is
  met if and only if that entry and those that may not go fit into it (`BudgetMetExactly`);
  `SmallestKeyMissesBudget` is an input that misses it.

## Model

| member | source | states |
|---|---|---|
| Zlib.StoredCodec | src/CacheObject.cpp:252-254 | the laws assumed of deflate and inflate can all be met: the stored-block coder meets them |
| CacheObjects.CacheObject.constructor | src/CacheObject.cpp:37-49 | a new object is EMPTY, holds nothing, and has no headers |
| CacheObjects.CacheObject.ResetState | src/CacheObject.cpp:74-99 | READ goes back to the start of the same data, WRITE becomes a FULL object with an unfinished stream, other states stay; size and headers stay |
| CacheObjects.CacheObject.Grow | src/CacheObject.cpp:297-312 | the buffer becomes the least number of whole chunks that holds total_out, and keeps its bytes |
| CacheObjects.CacheObject.Collect | src/CacheObject.cpp:297-327 | the staged bytes always fit: after each step zBufferPos is total_out and the buffer starts with the whole output |
| CacheObjects.CacheObject.DeflateOnce | src/CacheObject.cpp:247-331 | one turn of the loop takes in input without loss; if it must be repeated, input or held-back output has become less |
| CacheObjects.CacheObject.Compress | src/CacheObject.cpp:245-331 | the loop ends with all input taken in, and on Z_FINISH with a complete stream of all data |
| CacheObjects.CacheObject.WriteBytes | src/CacheObject.cpp:214-344 | writing appends to what an object in WRITE has, starts over in the other states, and NULL with 0 finishes the stream; the count returned is the size |
| CacheObjects.CacheObject.InflateOnce | src/CacheObject.cpp:375-427 | one turn of the loop gives the next bytes; it is repeated with room left only after need-dictionary, when it has given none |
| CacheObjects.CacheObject.ReadBytes | src/CacheObject.cpp:346-433 | restarting at the start of the caller's buffer loses nothing: a read gives exactly the next min(n, remaining) bytes, leaves the rest of the buffer alone, and keeps the compressed size |
| RoundTrip.WritesAccumulate | src/CacheObject.cpp:214-344 | any series of writes amounts to their concatenation, before and after the finish |
| RoundTrip.ReadsConserve | src/CacheObject.cpp:346-433 | for any sizes, what has been read followed by what remains is the data |
| RoundTrip.OneReadConserves | src/CacheObject.cpp:346-433 | a read of a positive size gives nothing if and only if nothing remains |
| RoundTrip.ResetRewinds | src/CacheObject.cpp:74-99 | after any reads resetState gives back the finished object |
| RoundTrip.CompressedRoundTrip | src/CacheObject.cpp:214-433 | reads up to an empty one concatenate to the writes, for any way to split them; an empty read comes only then; after resetState reading starts over |
| RoundTrip.ReadFile | tests/cachecheck.cpp:74-79 | reading until a read gives nothing yields the whole data |
| RoundTrip.CacheCheck | tests/cachecheck.cpp:34-91 | the file written to a new cache object and read back is the same file, for every coder |
| CacheObjects.CacheObject.BusyIs | src/CacheObject.cpp:106-118 | an object is BUSY if and only if a body is being written to it or read from it |
| CacheIndex.DataStreamHandler.Find | src/DataStreamHandler.cpp:387-388 | finds the one entry of the URL, or there is none |
| CacheIndex.DataStreamHandler.GetCacheObject | src/DataStreamHandler.cpp:433-457 | an object comes back if and only if the URL has an entry that is not BUSY |
| CacheIndex.DataStreamHandler.Erase | src/DataStreamHandler.cpp:363-364 | entry and object go together: the objects that nobody caches stay the same |
| CacheIndex.DataStreamHandler.EvictDownward | src/DataStreamHandler.cpp:349-366 | the loop that walks down over erased iterators leaves exactly the trimmed rows, and its running size never falls below 0 |
| CacheIndex.DataStreamHandler.CheckCacheSize | src/DataStreamHandler.cpp:336-367 | the new index is the trimmed old one, row for row; the item and BUSY entries stay; what goes is deleted |
| CacheIndex.DataStreamHandler.Insert | src/DataStreamHandler.cpp:414-414 | the new entry goes to its place in the order of URLs, and the item is owned by the map |
| CacheIndex.DataStreamHandler.AddCacheObject | src/DataStreamHandler.cpp:380-422 | a BUSY entry of another object keeps its place and the item is deleted; otherwise the index is the trimmed one with the item put in or replacing; no object is lost or owned twice |
| CacheIndex.LessIs | src/DataStreamHandler.cpp:414-414 | keys are in lexicographic order: one is smaller if and only if it is a proper prefix, or has the smaller character at the first place where they differ |
| CacheIndex.LargestGoFirst | src/DataStreamHandler.cpp:349-366 | every evicted entry has a larger URL than every removable entry that stays |
| CacheIndex.AddThird | src/DataStreamHandler.cpp:349-366 | two idle entries and a new one that is over the budget with them: of the two, the one with the larger URL goes |
| CacheIndex.CutIsStop | src/DataStreamHandler.cpp:350-350 | where the loop stops is the one place that stands for the shortest sufficient run |
| CacheIndex.EvictionSafe | src/DataStreamHandler.cpp:350-353 | the item just added, BUSY entries and the smallest URL are never evicted; what is evicted is removable |
| CacheIndex.BudgetMetExactly | src/DataStreamHandler.cpp:350-366 | the budget is met if and only if the entry with the smallest URL and those that may not go fit into it |
| CacheIndex.EvictionMeetsBudget | src/DataStreamHandler.cpp:350-366 | if it is not met, nothing removable is left above the smallest URL |
| CacheIndex.SmallestKeyMissesBudget | src/DataStreamHandler.cpp:350-350 | an index of two entries that is left as it is, over the budget |
| CacheIndex.EvictionShortest | src/DataStreamHandler.cpp:350-366 | every run of evictions that meets the budget takes away at least what was evicted |
| HttpHeaders.ScanStatus | src/HttpStream.cpp:217-246 | the scan of the status line says yes if and only if " 200" stands somewhere the loop looks |
| HttpHeaders.StatusSays | src/HttpStream.cpp:217-246 | a status line counts as a 200 if and only if that is its code or " 200" stands somewhere behind the code |
| HttpHeaders.PartialIsNotOk | src/HttpStream.cpp:217-246 | a 206 does not count, and a 404 with a strange reason phrase does |
| HttpHeaders.KindIs | src/HttpStream.cpp:217-326 | which lines are looked at, by what they begin with |
| HttpHeaders.HeaderLineIs | src/HttpStream.cpp:249-263 | of the lines that end in CRLF, all but two are covered: an ETag line without a value, and one with a lone quote |
| HttpHeaders.EtagRoundTrip | src/HttpStream.cpp:249-278 | the stored tag, put in quotes again, is the value of the line if and only if that is quoted and has no NUL (sections 2.3 and 3.2 of RFC 7232) |
| HttpHeaders.EtagLengthFits | src/HttpStream.cpp:251-263 | the length copied is that of the kept tag, and wraps around to the largest size_t if and only if the value is empty or a lone quote |
| HttpHeaders.UnquotedIsMangled | src/HttpStream.cpp:249-278 | a tag that does not begin with a quote comes back without its last character and in quotes |
| HttpHeaders.UnmovedExactly | src/HttpStream.cpp:249-298 | a series of lines leaves the validators if and only if its last tag and its last date repeat them |
| HttpHeaders.DateRoundTrip | src/HttpStream.cpp:279-298 | the stored date is the value of the line if and only if that has no NUL (sections 2.2 and 3.3 of RFC 7232) |
| HttpHeaders.TagsAreLast | src/HttpStream.cpp:249-298 | after any series of lines each validator sent comes from the last line of its kind, under the same conditions |
| HttpHeaders.ContentLengthRoundTrip | src/HttpStream.cpp:324-343 | a Content-Length line with a decimal number of bytes gives that number |
| HttpHeaders.AtolReads | src/HttpStream.cpp:324-343 | blanks before the number and text behind it do not matter, and a minus sign wraps around |
| HttpStreams.HttpStream.constructor | src/HttpStream.cpp:44-170 | a new stream takes over the cached object or a new one, and asks with the validators of a cached one |
| HttpStreams.HttpStream.Rebuffer | src/HttpStream.cpp:443-482 | left-over bytes go to the end of the overflow buffer, and head and size stay equal to its length |
| HttpStreams.HttpStream.WriteCallback | src/HttpStream.cpp:420-490 | a chunk is consumed whole: the first part fills the caller's request, the rest is buffered; a 200 body is also written to the cache object, and FIFO conservation is kept |
| HttpStreams.HttpStream.HeaderCallback | src/HttpStream.cpp:211-347 | a line sets the store flag, a validator of the cached object or the announced length, and nothing else |
| HttpStreams.HttpStream.TakeBuffered | src/HttpStream.cpp:606-646 | bytes of earlier callbacks are handed over first, in order, and the buffer keeps its rest |
| HttpStreams.HttpStream.ProcessMessages | src/HttpStream.cpp:653-828 | the first failing message decides the error that is thrown and recorded; the stream turns to the cache if and only if a message before that comes with 304 on its own handle; libcurl is called again at once if and only if it asked for that and no transfer has ended |
| HttpStreams.FirstErrorExactly | src/HttpStream.cpp:665-827 | the first message that is not harmless decides: the end of a transfer other than a good one, or the response code if it is not 0, 200 or 304, and each of these has its error |
| HttpStreams.HeardExactly | src/HttpStream.cpp:669-669 | over any bursts, a stream hears of the first error and of any 304 by its own response code, whatever those of the other streams are |
| HttpStreams.HttpStream.Pump | src/HttpStream.cpp:602-862 | the loop ends on every script, with all streams advanced by the bursts it used: those of the shortest part that fills the request, brings an error or a 304, leaves nothing running, or gives bytes without asking for another call; when curl runs, the reading stream's overflow buffer is empty |
| HttpStreams.StopsOnce | src/HttpStream.cpp:602-604 | for every script there is exactly one such part |
| HttpStreams.ServesOverAgain | src/HttpStream.cpp:869-871 | after a read from the cache object that gave nothing, the next one gives the document from its start |
| HttpStreams.HttpStream.ServeOrNot | src/HttpStream.cpp:864-879 | a stream that got a 304 gives the next bytes of its cache object, and rewinds it at the end |
| HttpStreams.HttpStream.ReadBytes | src/HttpStream.cpp:594-894 | what a call returns, writes to the caller's buffer and does to every stream, for every script, which part of the script it uses, and that it hands over all network bytes there are by then, up to the request; fBytesToRead is 0 afterwards, or what was missing if the call threw; it returns 0 only with an empty overflow buffer and no running transfer, unless it answers from the cache |
| HttpStreams.Multi.DeliverAll | src/HttpStream.cpp:414-418 | callbacks reach their own stream only, whoever is reading; the others keep what they had |
| HttpStreams.Multi.Perform | src/HttpStream.cpp:648-651 | one curl_multi_perform uses one burst, and moves every stream by its part of it |
| HttpStreams.Multi.Remove | src/DataStreamHandler.cpp:313-328 | once a handle is removed nothing more is delivered to it, and the rest of the script stays as it is |
| HttpSessions.StateFits | src/HttpStream.cpp:211-347 | after any part of any answer, the store flag and the length are those of the header lines seen |
| HttpSessions.TagsSeen | src/HttpStream.cpp:249-299 | after any part of an answer, the validators are the fold of the lines seen |
| HttpSessions.EndMeansComplete | src/HttpStream.cpp:830-835 | an empty read without an error means that the whole answer has been delivered: no early end of stream |
| HttpSessions.BeganSeen | src/HttpStream.cpp:436-441 | the cache object is written to if and only if caching is on, some line says 200, and a body chunk has come |
| HttpSessions.ErrorSeesLines | src/HttpStream.cpp:665-777 | if no transfer broke, a read that throws has seen all header lines, the code of the answer is not 0, 200 or 304, and access is denied exactly for 401, 403 and 407, and else the document not found |
| HttpSessions.ReadHearsOut | src/HttpStream.cpp:602-862 | a read that returns has seen all header lines, and an empty one that does not answer from the cache has delivered the whole body |
| HttpSessions.CoreAfterRead | src/HttpStream.cpp:864-893 | each read keeps stream, script and cache object in step, for any answer |
| HttpSessions.LiveAfterRead | src/HttpStream.cpp:594-894 | one read keeps the account of the lifetime: output, cache object and script stay in step |
| HttpSessions.ReadOnce | src/HttpStream.cpp:594-894 | the same for the method, with what the caller is given: bTransferFinished is set if and only if after some read the caller had exactly as many bytes as were announced |
| HttpSessions.Drain | src/XmlReader.cpp:771-849 | reading until nothing comes gives the whole body, or the whole cached body on a 304; reading in part gives a part, of at least one byte a read |
| HttpSessions.DrainFor | src/XmlReader.cpp:768-849 | the loop of parse reads as long as it goes on, whatever the parser makes of the chunks |
| Lifetimes.FindOrAllocate | src/DataStreamHandler.cpp:264-271 | the stream gets the finished object of its URL if there is one, and otherwise a new one that nobody else has |
| Lifetimes.Destroy | src/HttpStream.cpp:62-98 | which of store, keep and drop happens, and what becomes of index and object |
| Lifetimes.LogFits | src/HttpStream.cpp:69-91 | which branch the destructor takes, by what came and what the caller was given: it stores exactly when caching is on, a line said 200 and after some read the caller had as many bytes as were announced, and keeps exactly when it does not and a 304 was heard |
| Lifetimes.Retire | src/HttpStream.cpp:62-98 | the destructor in terms of contents, validators and objects that nobody caches |
| Lifetimes.Session | src/HttpStream.cpp:44-98 | a whole lifetime is a step of the cache: contents, validators, output and lost objects are what the log says, for any answer |
| Runs.EntriesAreAnswers | src/HttpStream.cpp:72-79 | every finished entry holds what came for the latest lifetime that stored something under its URL, and has been there since |
| Runs.RevalidationDelivers | src/HttpStream.cpp:864-879 | a stream that found an entry and is answered 304 delivers, read to the end, what is stored, and otherwise a part of it |
| Runs.SpoilsExactly | src/HttpStream.cpp:72-79 | what is stored is not the body that the caller has if and only if the answer is a 304 behind a line that says 200, or has another length than announced; for the 304 nothing is stored |
| Runs.RevalidationIsTransparent | src/HttpStream.cpp:864-879 | over any run, a 304 read to its end delivers the body that was taken last if and only if that is what is stored, as when no later lifetime has spoilt it; after such a 304 it delivers nothing |
| Runs.HonestServersAreTransparent | src/HttpStream.cpp:864-879 | where everything stored comes with the code 200 and the length it announces, a 304 delivers what the latest 200 taken in full delivered |
| Runs.RevalidatedForever | src/HttpStream.cpp:80-84 | any number of lifetimes that neither store something nor break off a refresh leave what is stored as it is, and each of them finds it |
| Runs.StuckForever | src/DataStreamHandler.cpp:391-397 | an entry in WRITE between lifetimes stays so, and no later lifetime finds it |
| Runs.StuckByThis | src/HttpStream.cpp:438-441 | one lifetime sticks an entry if and only if it found it with caching on, was sent a line that says 200 and a body chunk, and after no read had as many bytes as were announced |
| Runs.StuckByAbort | src/HttpStream.cpp:438-441 | over a run, an entry is stuck if and only if some lifetime on its URL has done that |
| Runs.ValidatorsReturn | src/HttpStream.cpp:127-141 | the request after a lifetime that stored something carries the last entity-tag and date lines byte for byte, if and only if they are quoted, or dates, without NUL |
| Runs.ValidatorsRunAhead | src/HttpStream.cpp:249-299 | any answer that leaves the cached body leaves the validators of its header lines with it, and the next request asks for those |
| Runs.ValidatorsCurrent | src/HttpStream.cpp:249-299 | over a run, the validators of a cached body are those it was stored with if and only if the last tag and the last date that later lifetimes brought repeat them |
| Runs.SwitchedOffGivesNothing | src/DataStreamHandler.cpp:264-272 | with caching switched off a cached document is asked for conditionally all the same, and its caller is given nothing if and only if the answer is 304 or empty |
| Runs.NothingLost | src/HttpStream.cpp:80-84 | no object is lost if and only if no stream that had found nothing, with caching on, hears of a 304 and stores nothing |
| Runs.ConditionalLosesNothing | src/HttpStream.cpp:127-141 | no object is lost when only requests with a conditional header are answered 304 |
| Runs.UnsolicitedLoses | src/HttpStream.cpp:80-84 | an object is lost when a stream that had found nothing is answered 304, read to its end and stores nothing |
| Runs.RunSessions | src/HttpStream.cpp:62-98 | every series of lifetimes from an empty cache is such a run, with exactly the counted number of lost objects |
| Incidents.PlayOutPlays | src/HttpStream.cpp:648-651 | every answer can be played by a script, so that the theorems about scripts speak of all of them |
| Incidents.AbortedRefreshSticks | src/HttpStream.cpp:438-441 | a document is taken, a longer one comes, and the caller stops after a byte: the entry is stuck |
| Incidents.RunAbortedRefresh | src/HttpStream.cpp:438-441 | this happens, with every coder |
| Incidents.GoneAndBackAsksForOther | src/HttpStream.cpp:249-299 | a document is taken, then a 404 brings another tag: the body stays, and the next request asks for the other tag |
| Incidents.RunGoneAndBack | src/HttpStream.cpp:249-299 | this happens, with every coder |
| Incidents.UnsolicitedIsHeard | src/HttpStream.cpp:80-84 | one read of a document that is not cached, answered 304, loses an object |
| Incidents.SwitchedOffIsEmpty | src/DataStreamHandler.cpp:264-272 | a document is taken, then asked for with caching off: the request is conditional, and the caller is given nothing |
| Incidents.EmptiedBySecond | src/HttpStream.cpp:72-79 | a document is taken, and a 304 behind a proxy's 200 announces its length: it is delivered once more, and the entry holds nothing |
| Incidents.RunThroughProxy | src/HttpStream.cpp:72-79 | this happens, with every coder, and the next 304 delivers nothing |
| Incidents.RefusedExactly | src/HttpStream.cpp:670-767 | when no transfer breaks off, a caller who reads on gets an exception if and only if the code is not 0, 200 or 304, and which one depends on the code |
| Incidents.RunRefused | src/HttpStream.cpp:742-767 | every such answer can be played, and ends in that exception |
| Incidents.RunMissing | src/HttpStream.cpp:751-757 | a document that is gone, with an error page or without: the exception says that it is not found, and no read says that this was all |
| Incidents.ChunkedRefreshSticks | src/HttpStream.cpp:886-887 | a document is taken, and another of unannounced length is read in full: the entry is stuck |
| Incidents.RunChunkedRefresh | src/HttpStream.cpp:886-887 | this happens, with every coder |
| Schedules.FedOnce | src/HttpStream.cpp:602-894 | one read keeps conservation for every stream, whichever of them is read and whether it throws |
| Schedules.RunSchedule | src/HttpStream.cpp:594-894 | over any schedule, each stream's delivered and buffered bytes are what libcurl brought for it, and its reader has what it delivered and what its cache object served; throwers are taken off and the others go on; every turn is made, and what it came to is what readBytes does |
| Schedules.ReadBeforeError | src/HttpStream.cpp:602-604 | ten bytes come, then the transfer breaks off: the first read returns 10, the second one throws |
| Schedules.ThrowLeavesRequest | src/HttpStream.cpp:804-810 | a refused connection leaves fBytesToRead at the full request of 10 |
| Parsing.FeedingIsPrefix | src/XmlReader.cpp:813-849 | the parser is fed the chunks in order, all of them unless it rejects one |
| Parsing.ParseAccepts | src/XmlReader.cpp:813-855 | a pass succeeds if and only if the parser rejects none of the chunks that become of the reads, and does not complain at the end |
| Parsing.BomStripped | src/XmlReader.cpp:797-811 | for the sizes named, the chunks concatenate to the document less one leading mark (section 6 of RFC 3629) |
| Parsing.BomLeftIn | src/XmlReader.cpp:797-849 | for all other sizes there is a document for which they do not |
| Parsing.BomExact | src/XmlReader.cpp:770-849 | so the sizes named are exactly those for which every document loses its mark and nothing else |
| Parsing.FilesLoseBom | src/XmlReader.cpp:770-849 | reads that are full but for the last always meet the condition, whatever the length |
| Documents.FileStream.ReadBytes | src/FileStream.cpp:194-232 | the next min(n, remaining) bytes of the file or of the cached copy; -1 only if the file cannot be opened |
| Documents.PassesThroughIs | src/TidyStream.cpp:46-50 | a URL is not tidied if and only if it ends in ".smil" or has four characters |
| Documents.TakeWhole | src/TidyStream.cpp:180-204 | the loop over the source gets the whole of it |
| Documents.TidyStream.StoreCopy | src/TidyStream.cpp:225-271 | the tidied copy is finished, flagged and stored; with caching off it is lost |
| Documents.TidyStream.Perform | src/TidyStream.cpp:150-279 | the stream will give the cached copy, or the tidied source; what that does to the index |
| Documents.TidyStream.FirstRead | src/TidyStream.cpp:77-143 | the first read tidies and gives the first bytes of what the stream promises, or fails if the source cannot be read |
| Documents.TidyStream.GiveTidied | src/TidyStream.cpp:84-117 | every later read gives the next min(n, remaining) bytes of the same |
| Documents.ParseLoop | src/XmlReader.cpp:768-855 | the loop with its buffer edited in place feeds the parser what the function of the reads says, for every stream |
| Documents.PassFile | src/XmlReader.cpp:671-703 | a pass without tidy reads the cached copy or the file, and leaves the cache as it was |
| Documents.PassTidy | src/XmlReader.cpp:623-633 | a pass with tidy reads the cached copy or the tidied file, and leaves the tidied copy in the cache, if caching is on and the URL is tidied |
| Documents.CopyIsShown | src/TidyStream.cpp:259-264 | afterwards opening without tidy gives what the tidied pass read, if caching is on and the entry is not stuck, and else what it gave before |
| Documents.PassedExactly | src/XmlReader.cpp:768-855 | a pass over a local document succeeds if and only if it can be read, the parser rejects none of its chunks and does not complain at the end |
| Documents.ParseHtml | src/XmlReader.cpp:587-708 | which passes are made, what each of them is fed, and what is returned |
| Documents.FallbackExact | src/XmlReader.cpp:671-680 | the last pass reads what the accepting pass read, if and only if no tidied pass was made, or there was a copy, or the URL is not tidied, or the copy was cached, or tidying changes nothing |
| Documents.LastPassIsFedTheAccepted | src/XmlReader.cpp:671-680 | under that condition the last pass is fed chunk for chunk what the accepting pass was fed, or a part of it if its parser rejects a chunk |
| Documents.SameTextExactly | src/XmlReader.cpp:671-707 | when parseHtml succeeds, the content handler has got the text that was accepted, if and only if no tidied pass was made, or the URL is not tidied, or the copy is in the cache, or tidying changes at most the mark |
| Documents.UncachedIsNotShown | src/XmlReader.cpp:671-680 | with caching off, a document that tidying changes: the tidied pass reads the one, the last pass the other |
| RemoteTidy.ReadCopy | src/TidyStream.cpp:104-117 | a flagged copy is given out whole, and rewound |
| RemoteTidy.TidyTail | src/TidyStream.cpp:211-271 | what a tidied pass gives and what it leaves in the cache: a flagged copy as it is, or the tidied document, in the object found even with caching off, or in a new one that is stored, rejected or lost |
| RemoteTidy.TidiedPass | src/TidyStream.cpp:150-279 | a tidied pass over HTTP is the whole lifetime of its source, read to its end, and then that; how many objects are lost |
| RemoteTidy.RemoteLastPass | src/XmlReader.cpp:671-680 | over HTTP the last pass gets what the tidied pass was given if and only if it is answered 304, with caching on, and finds the copy, or the answer is the same bytes |
| RemoteTidy.ParseHtml | src/XmlReader.cpp:587-708 | which passes are made over a remote document, as steps of the cache: a tidied one if and only if a read of the first threw or its parser did not accept what it was fed, the last one if and only if the document was accepted; success if and only if that one was made, no read threw and its parser accepted; how many objects are lost |
| RemoteTidy.SessionFlag | src/HttpStream.cpp:75-78 | a lifetime leaves the tidy flag of an entry that stays, whatever it stores, and a new entry has none |
| RemoteTidy.FlagLies | src/TidyStream.cpp:217-221 | while an entry stays cached, its flag is set on what did not come out of tidy if and only if a lifetime stored something in it when it was flagged |
| RemoteTidy.TidiedPassGivesRaw | src/TidyStream.cpp:217-222 | a tidied pass whose source stores something in a flagged entry is given that untidied |
| RemoteTidy.PartIsCached | src/TidyStream.cpp:182-188 | a tidied pass that finds no flagged entry tidies whatever came of its source, and exactly when that is cached and flagged |
| RemoteTidy.RunVisits | src/DataStreamHandler.cpp:211-304 | any series of plain lifetimes and tidied passes from an empty cache is a run of visits, with exactly the counted number of lost objects |
| RemoteTidy.ChangedDocument | src/TidyStream.cpp:217-222 | two tidied passes over a document that changes: the second one is given it untidied |
| RemoteTidy.MissingOverwrites | src/TidyStream.cpp:182-188 | a tidied pass that is answered 404 overwrites a good copy with what tidy makes of nothing |
| RemoteTidy.ResentDocument | src/XmlReader.cpp:671-680 | parseHtml on a document that is answered 200 three times: the tidied one is accepted, the content handler gets the raw one |
| RemoteTidy.MissingThrice | src/XmlReader.cpp:773-779 | a document that is answered 404 three times: a tidied pass is made, the last pass throws as well, and parseHtml fails |
| RemoteTidy.RejectedTwice | src/XmlReader.cpp:623-640 | when the tidied document is rejected as well there is no last pass, whatever tidy does |
| RemoteTidy.MissingDocument | src/TidyStream.cpp:182-188 | a tidied pass that is answered 404 caches, flagged, what tidy makes of nothing |
| Namespaces.DeclaredInOrder | src/XmlReader.cpp:418-432 | exactly the attributes named xmlns or xmlns:p declare something, one namespace each, in the order of the attributes |
| Namespaces.DeclaredIs | src/XmlReader.cpp:418-432 | a prefix is declared with a URI if and only if an attribute says so; the default one by xmlns, or by xmlns: with nothing behind it |
| Namespaces.PushPop | src/XmlReader.cpp:409-466 | an end tag undoes its start tag, whatever is declared |
| Namespaces.PopFrees | src/XmlReader.h:136-146 | the deref cascade frees exactly the nodes of the matching push and leaves exact counts |
| Namespaces.FoundIs | src/XmlReader.h:112-121 | lookup gives the innermost declaration whose prefix is an initial segment of the name |
| Namespaces.AlwaysFound | src/XmlReader.h:112-121 | lookup over the root never gives NULL |
| Namespaces.AgreesWithStandard | src/XmlReader.h:112-121 | lookup picks the declaration the standard asks for if and only if no nearer one has a prefix that begins the name (sections 6.1 and 6.2 of Namespaces in XML 1.0) |
| Namespaces.ReportedAgrees | src/XmlReader.cpp:86-162 | over a parse, the namespace reported is the one the standard asks for, of the declarations of the open elements, under the exact condition |
| Namespaces.OwnDeclarationWins | src/XmlReader.cpp:86-162 | an element whose start tag declares a prefix that begins its name, or the default namespace, is reported in it at both ends, if no attribute behind declares another such prefix, whatever is in scope around it |
| Namespaces.ParsePage | src/XmlReader.cpp:86-162 | a document with a default namespace: both ends report it, and nothing is left |
| Namespaces.DefaultHidesPrefix | src/XmlReader.h:114-117 | a default declaration hides a prefix declared outside it |
| Namespaces.PrefixCapturesName | src/XmlReader.h:114-117 | a prefix captures an unprefixed name that begins with it |
| Namespaces.SameAtBothEnds | src/XmlReader.cpp:129-162 | in every parse, cut off anywhere, an end tag reports what its start tag reported, and there is something to report |
| Namespaces.ChainIsInScope | src/XmlReader.cpp:409-442 | the nodes above the root are exactly the declarations of the open elements, in order |
| Namespaces.XmlNamespace.Deref | src/XmlReader.h:136-146 | frees the nodes whose counts fall to zero, from the last down, and no others |
| Namespaces.XmlNamespace.UriForPrefix | src/XmlReader.h:112-121 | the recursion over parents is lookup over the chain |
| Namespaces.XmlReader.ExactCounts | src/XmlReader.h:126-146 | in every reachable state a live node's count is the number of stack items that point at it plus the number of live nodes whose parent it is, and is positive |
| Namespaces.XmlReader.PushNamespaces | src/XmlReader.cpp:409-442 | a start tag adds nodes for its declarations above the live ones, and a stack item for the top one |
| Namespaces.XmlReader.PopNamespaces | src/XmlReader.cpp:450-466 | takes the top stack item off and frees nothing |
| Namespaces.XmlReader.EndElement | src/XmlReader.cpp:129-162 | looks up the name, pops and derefs: the live nodes are an initial part of what they were |
| Namespaces.HandleElement | src/XmlReader.cpp:86-162 | an element with all its content leaves the live nodes the same, object for object |
| Namespaces.Parse | src/XmlReader.cpp:86-162 | any run of tags, stopped anywhere, reports the namespaces of the specification, and leaves nothing live if the tags are balanced |
| Url.Find | src/HttpStream.cpp:911-911 | the first place where one of the characters stands |
| Url.ProtocolRequired | src/HttpStream.cpp:901-903 | a URL without "://" has no host, user or password |
| Url.PartsComeBack | src/HttpStream.cpp:899-970 | the three extractors give back host, user and password if and only if there is user information, or no '@' behind the host, or an empty login there (section 3.2 of RFC 3986) |
| Url.CredentialsAreWhole | src/HttpStream.cpp:919-970 | for any URL with a password, username, colon and password are the text between "://" and the first '@' behind it |
| Url.AtInPathMisleads | src/HttpStream.cpp:907-909 | an '@' in a path makes what stands behind it the host |

## Left out

- Redirects (301, 302, Location): the new connection keeps the flags, the announced length and the delete flag of the old one and frees the buffer twice, and nothing bounds the number of hops. Responses are without redirect.
- HttpStreams.HttpStream.HeaderCallback: does not model the Location line, for the same reason.
- HttpStreams.HttpStream.ProcessMessages: models 301 and 302 without a location only, for the same reason.
- HttpStreams.HttpStream.ReadBytes: asks that a stream which hears of a 304 reads a cache object that nobody writes meanwhile, since reading an object in WRITE is not modelled.
- CacheObjects.CacheObject.ReadBytes: does not model reading an object in WRITE, which cuts its stream off and inflates what is there, with whatever stands behind it in the buffer; BUSY entries are not handed out, so that the streams of a run never do that.
- HttpHeaders.EtagRoundTrip: is about lines with a tag; EtagLengthFits says which lines have none, and what the length becomes for those. What copying that length does is not modelled.
- libcurl, zlib, libxml2 and libtidy: environment, as described above. Waiting with `select`, timeouts, handle pooling, the share locks, user agents and TLS options are not part of this model.
- A handle joins its multi handle at the start and may be removed later; none is added during a schedule.
- Fatal zlib codes and failed allocations. A buffer grown by `realloc` holds zeros where the original holds anything.
- The preset dictionary's text: the laws speak of a coder whose dictionary has been set.
- `newStream` with its own caching switch off, which skips the lookup. `DataSource` always leaves it on; the switch that `parse` sets afterwards is modelled.
- Documents.TidyStream.Perform: is about local documents, whose cached copies are all flagged, since only a TidyStream stores them; RemoteTidy has the rest of Perform for documents that come over HTTP.
- Documents.ParseHtml: the same; RemoteTidy.ParseHtml is about remote documents.
- Header lines after a body chunk (trailers of chunked transfer coding): all header lines come first.
- Documents.FileStream.ReadBytes: does not model a failing `fread`; a file that can be opened can be read.
- The reads of a remote TidyStream one by one: what they give in all is modelled. A remote URL that is not tidied is read as it is, with caching on.
- The destructor of a TidyStream that was never read, and of one whose source failed.
- The loop of `parse` on a stream that tidies: `ParseFrom` writes its first turn out, and `ParseLoop` does the others.
- Reading from a stream again after one of its reads has thrown.
- Overlapping lifetimes on one URL: runs are series of lifetimes, and schedules of overlapping streams ask that the cache object of a stream that is answered 304 is not written by another.
- Content codings: the bytes are those that libcurl hands over, after decoding.
- State that a stopped parse carries into the next, and the teardown of `~XmlReader`, which pops without `deref`.
- `XmlAttributes` beyond names and values; local names; `transcode`; `getXmlErrorCode`; `getHttpMsg` and the texts of errors; logging.
- IPv6 literals in URLs.
