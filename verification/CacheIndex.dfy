/**
 The cache index of src/DataStreamHandler.cpp: an ordered map from URLs to cache objects with
 BUSY protection and eviction in descending URL order under a byte budget. `live` is the set of
 cache objects that have been allocated and not deleted, so that every `delete` can be checked.
 */
module CacheIndex {
  import opened Bytes
  import opened Zlib
  import opened CacheObjects

  const MAX_CACHE_SIZE: nat := 4194304

  // ---- Key order of std::map<std::string, ...> ------------------------------------------------

  predicate Less(a: string, b: string) {
    b != [] && (a == [] || a[0] < b[0] || (a[0] == b[0] && Less(a[1..], b[1..])))
  }

  /** The strings are the same before place k, and there the first one has the smaller character. */
  predicate SmallerAt(a: string, b: string, k: nat) {
    k < |a| && k < |b| && a[..k] == b[..k] && a[k] < b[k]
  }

  /** Lexicographic order: a is a proper prefix of b, or smaller at the first place where they differ. */
  lemma {:induction false} LessIs(a: string, b: string)
    ensures Less(a, b) <==> a < b || exists k: nat :: SmallerAt(a, b, k)
  {
    if a != [] && b != [] && a[0] == b[0] {
      LessIs(a[1..], b[1..]);
      assert a == [a[0]] + a[1..] && b == [b[0]] + b[1..];
      if k: nat :| SmallerAt(a[1..], b[1..], k) {
        assert a[..k + 1] == [a[0]] + a[1..][..k] && b[..k + 1] == [b[0]] + b[1..][..k];
        assert SmallerAt(a, b, k + 1);
      }
      if k: nat :| SmallerAt(a, b, k) {
        assert k > 0 && a[1..][..k - 1] == a[..k][1..] && b[1..][..k - 1] == b[..k][1..];
        assert SmallerAt(a[1..], b[1..], k - 1);
      }
    } else if a != [] && b != [] {
      assert a[0] < b[0] ==> SmallerAt(a, b, 0);
      forall k: nat | SmallerAt(a, b, k)
        ensures k == 0
      {
        SameFirst(a, b, k);
      }
    }
  }

  lemma {:induction false} SameFirst(a: string, b: string, k: nat)
    requires SmallerAt(a, b, k)
    ensures k > 0 ==> a[0] == b[0]
  {
    if k > 0 {
      assert a[..k][0] == a[0] && b[..k][0] == b[0];
    }
  }

  lemma {:induction false} LessTransitive(a: string, b: string, c: string)
    requires Less(a, b) && Less(b, c)
    ensures Less(a, c)
  {
    if a != [] && a[0] == b[0] == c[0] {
      LessTransitive(a[1..], b[1..], c[1..]);
    }
  }

  /** Exactly one of a < b, a == b, b < a. */
  lemma {:induction false} LessTotal(a: string, b: string)
    ensures !(Less(a, b) && Less(b, a))
    ensures a == b <==> !Less(a, b) && !Less(b, a)
  {
    if a != [] && b != [] && a[0] == b[0] {
      LessTotal(a[1..], b[1..]);
      assert a == [a[0]] + a[1..] && b == [b[0]] + b[1..];
    }
  }

  // ---- Eviction, on a snapshot of the map ------------------------------------------------

  datatype Entry = Entry(url: string, item: CacheObject)

  /** A map entry as eviction sees it: buffer size, BUSY or not, and whether it was just added. */
  datatype Row = Row(url: string, size: nat, busy: bool, added: bool)

  predicate Removable(row: Row) {
    !row.added && !row.busy
  }

  function Total(rows: seq<Row>): nat {
    if rows == [] then 0 else rows[0].size + Total(rows[1..])
  }

  /** The rows that eviction passes over. */
  function Spared(rows: seq<Row>): seq<Row> {
    if rows == [] then []
    else (if Removable(rows[0]) then [] else [rows[0]]) + Spared(rows[1..])
  }

  /** What is left when everything removable from position t on has gone. */
  function Keep(rows: seq<Row>, t: nat): seq<Row>
    requires t <= |rows|
  {
    rows[..t] + Spared(rows[t..])
  }

  /**
   t is where eviction stops: nothing short of t was enough, and either t is enough or everything
   but the smallest key has been looked at.
   */
  ghost predicate Cut(rows: seq<Row>, t: nat) {
    && t <= |rows|
    && (t == 0 ==> rows == [])
    && (forall u: nat | t < u <= |rows| :: Total(Keep(rows, u)) > MAX_CACHE_SIZE)
    && (Total(Keep(rows, t)) <= MAX_CACHE_SIZE || t == 1)
  }

  /** Where eviction stops that has come down to position t. */
  function StopFrom(rows: seq<Row>, t: nat): (r: nat)
    requires t <= |rows|
    ensures r <= t
  {
    if t <= 1 || Total(Keep(rows, t)) <= MAX_CACHE_SIZE then t else StopFrom(rows, t - 1)
  }

  /** What eviction leaves. */
  function Trimmed(rows: seq<Row>): seq<Row> {
    Keep(rows, StopFrom(rows, |rows|))
  }

  /** StopFrom finds the one cut there is. */
  lemma {:induction false} CutIsStop(rows: seq<Row>, t: nat)
    ensures Cut(rows, StopFrom(rows, |rows|))
    ensures Cut(rows, t) <==> t == StopFrom(rows, |rows|)
  {
    StopIsCut(rows, |rows|);
    var stop := StopFrom(rows, |rows|);
    assert Total(Keep(rows, stop)) <= MAX_CACHE_SIZE || stop <= 1;
    assert Cut(rows, t) ==> Total(Keep(rows, t)) <= MAX_CACHE_SIZE || t <= 1;
  }

  lemma {:induction false} StopIsCut(rows: seq<Row>, t: nat)
    requires t <= |rows| && (t == 0 ==> rows == [])
    requires forall u: nat | t < u <= |rows| :: Total(Keep(rows, u)) > MAX_CACHE_SIZE
    ensures Cut(rows, StopFrom(rows, t))
    decreases t
  {
    if t > 1 && Total(Keep(rows, t)) > MAX_CACHE_SIZE {
      StopIsCut(rows, t - 1);
    }
  }

  lemma {:induction false} TotalConcat(a: seq<Row>, b: seq<Row>)
    ensures Total(a + b) == Total(a) + Total(b)
  {
    if a == [] {
      assert a + b == b;
    } else {
      TotalConcat(a[1..], b);
      assert (a + b)[1..] == a[1..] + b;
    }
  }

  lemma {:induction false} KeepParts(rows: seq<Row>, t: nat)
    requires t < |rows|
    ensures var gone := Spared(rows[t + 1..]);
      && Keep(rows, t + 1) == rows[..t] + ([rows[t]] + gone)
      && Keep(rows, t) == rows[..t] + if Removable(rows[t]) then gone else [rows[t]] + gone
  {
    assert rows[t..][1..] == rows[t + 1..] && rows[t..][0] == rows[t];
    assert rows[..t + 1] == rows[..t] + [rows[t]];
  }

  lemma {:induction false} TakeOut(before: seq<Row>, row: Row, after: seq<Row>)
    ensures var k := before + ([row] + after);
      && |before| < |k| && k[|before|] == row && k[..|before|] + k[|before| + 1..] == before + after
      && Total(k) == Total(before + after) + row.size
  {
    TotalConcat(before, [row] + after);
    TotalConcat(before, after);
    assert ([row] + after)[1..] == after;
  }

  /** One more row out of the way: Keep(t) is Keep(t + 1) less the row at t, if that is removable. */
  lemma {:induction false} KeepStep(rows: seq<Row>, t: nat)
    requires t < |rows|
    ensures var k := Keep(rows, t + 1);
      && t < |k| && k[t] == rows[t]
      && k[t].size <= Total(k)
      && Keep(rows, t) == (if Removable(rows[t]) then k[..t] + k[t + 1..] else k)
      && Total(Keep(rows, t)) == (if Removable(rows[t]) then Total(k) - rows[t].size else Total(k))
  {
    KeepParts(rows, t);
    TakeOut(rows[..t], rows[t], Spared(rows[t + 1..]));
  }

  lemma {:induction false} SparedMembers(rows: seq<Row>, row: Row)
    ensures row in Spared(rows) <==> row in rows && !Removable(row)
  {
    if rows != [] {
      SparedMembers(rows[1..], row);
      assert rows == [rows[0]] + rows[1..];
    }
  }

  /**
   What eviction can never take: the smallest key, the item just added, a BUSY entry. And what it
   takes is removable and lies at or after the cut.
   */
  lemma {:induction false} EvictionSafe(rows: seq<Row>, t: nat, i: nat)
    requires Cut(rows, t) && i < |rows|
    ensures i == 0 || rows[i].added || rows[i].busy ==> rows[i] in Keep(rows, t)
    ensures rows[i] !in Keep(rows, t) ==> t <= i && Removable(rows[i])
  {
    SparedMembers(rows[t..], rows[i]);
    if i < t {
      assert rows[i] == rows[..t][i];
    } else {
      assert rows[i] == rows[t..][i - t];
    }
  }

  /** The budget is met unless everything removable but the smallest key is gone. */
  lemma {:induction false} EvictionMeetsBudget(rows: seq<Row>, t: nat)
    requires Cut(rows, t)
    ensures Total(Keep(rows, t)) <= MAX_CACHE_SIZE
         || forall row | row in Keep(rows, t) :: row == rows[0] || !Removable(row)
  {
    if Total(Keep(rows, t)) > MAX_CACHE_SIZE {
      forall row | row in Keep(rows, t)
        ensures row == rows[0] || !Removable(row)
      {
        SparedMembers(rows[1..], row);
      }
    }
  }

  /** More evictions never leave more. */
  lemma {:induction false} KeepShrinks(rows: seq<Row>, t: nat, u: nat)
    requires t <= u <= |rows|
    ensures Total(Keep(rows, t)) <= Total(Keep(rows, u))
    decreases u - t
  {
    if t < u {
      KeepStep(rows, t);
      KeepShrinks(rows, t + 1, u);
    }
  }

  /**
   The exact condition: eviction meets the budget if and only if the entry with the smallest URL and
   those that may not go fit into it.
   */
  lemma {:induction false} BudgetMetExactly(rows: seq<Row>)
    requires rows != []
    ensures Total(Trimmed(rows)) <= 4194304 <==> rows[0].size + Total(Spared(rows[1..])) <= 4194304
  {
    var t := StopFrom(rows, |rows|);
    CutIsStop(rows, t);
    KeepShrinks(rows, 1, t);
    assert Keep(rows, 1) == [rows[0]] + Spared(rows[1..]);
    assert ([rows[0]] + Spared(rows[1..]))[1..] == Spared(rows[1..]);
  }

  /** A large entry under the smallest URL stays, and the budget is missed. */
  lemma {:induction false} SmallestKeyMissesBudget()
    ensures var rows := [Row("http://a", 5000000, false, false), Row("http://b", 100, false, true)];
      Trimmed(rows) == rows && Total(Trimmed(rows)) > MAX_CACHE_SIZE
  {
    var rows := [Row("http://a", 5000000, false, false), Row("http://b", 100, false, true)];
    assert rows[1..] == [Row("http://b", 100, false, true)] && rows[2..] == [] && rows[1..][1..] == [];
    assert Keep(rows, 2) == rows && Keep(rows, 1) == rows;
  }

  /** The run is the shortest: a cut that also meets the budget keeps no row that t does not keep. */
  lemma {:induction false} EvictionShortest(rows: seq<Row>, t: nat, u: nat, row: Row)
    requires Cut(rows, t)
    requires 0 < u <= |rows| && Total(Keep(rows, u)) <= 4194304
    ensures u <= t
    ensures row in Keep(rows, u) ==> row in Keep(rows, t)
  {
    if row in Keep(rows, u) {
      SparedMembers(rows[u..], row);
      SparedMembers(rows[t..], row);
      var i :| 0 <= i < |rows| && rows[i] == row && (i < u || !Removable(row));
      if i < t {
        assert row == rows[..t][i];
      } else {
        assert row == rows[t..][i - t];
      }
    }
  }

  lemma {:induction false} KeepMembers(rows: seq<Row>, t: nat, row: Row)
    requires t <= |rows|
    ensures row in Keep(rows, t) ==> row in rows
    ensures row in rows && !Removable(row) ==> row in Keep(rows, t)
  {
    SparedMembers(rows[t..], row);
    assert rows == rows[..t] + rows[t..];
  }

  // ---- The class ------------------------------------------------

  predicate InOrder(entries: seq<Entry>, i: nat, j: nat) {
    i < j < |entries| ==> Less(entries[i].url, entries[j].url) && entries[i].item != entries[j].item
  }

  /** Keys ascend, and no object is cached twice. */
  ghost predicate Ordered(entries: seq<Entry>) {
    forall i: nat, j: nat :: InOrder(entries, i, j)
  }

  /** An entry is determined by its URL, and by its object. */
  lemma {:induction false} Same(entries: seq<Entry>, e: Entry)
    requires Ordered(entries) && e in entries
    ensures forall f | f in entries && (f.url == e.url || f.item == e.item) :: f == e
  {
    var i :| 0 <= i < |entries| && entries[i] == e;
    forall f | f in entries && (f.url == e.url || f.item == e.item)
      ensures f == e
    {
      var j :| 0 <= j < |entries| && entries[j] == f;
      LessTotal(e.url, e.url);
      assert InOrder(entries, i, j) && InOrder(entries, j, i);
    }
  }

  /** Leaving entries out, or taking them up in the same order, keeps the order. */
  lemma {:induction false} OrderedWithout(entries: seq<Entry>, it: nat)
    requires Ordered(entries) && it < |entries|
    ensures Ordered(entries[..it] + entries[it + 1..])
    ensures forall e | e in entries[..it] + entries[it + 1..] :: e in entries && e.item != entries[it].item
  {
    var rest := entries[..it] + entries[it + 1..];
    forall i: nat, j: nat
      ensures InOrder(rest, i, j)
    {
      assert InOrder(entries, if i < it then i else i + 1, if j < it then j else j + 1);
    }
    forall e | e in rest
      ensures e in entries && e.item != entries[it].item
    {
      var k :| 0 <= k < |rest| && rest[k] == e;
      assert InOrder(entries, k, it) && InOrder(entries, it, k + 1);
    }
  }

  // ---- The map update that an insertion stands for ------------------------------------------------

  function Put(entries: seq<Entry>, url: string, item: CacheObject): seq<Entry> {
    if entries == [] then [Entry(url, item)]
    else if entries[0].url == url then [Entry(url, item)] + entries[1..]
    else if Less(entries[0].url, url) then [entries[0]] + Put(entries[1..], url, item)
    else [Entry(url, item)] + entries
  }

  /** Put at the place where the search for the key ends. */
  lemma {:induction false} PutAt(entries: seq<Entry>, it: nat, url: string, item: CacheObject)
    requires it <= |entries|
    requires forall k | 0 <= k < it :: Less(entries[k].url, url) && entries[k].url != url
    requires it < |entries| ==> !Less(entries[it].url, url)
    ensures Put(entries, url, item) ==
      if it < |entries| && entries[it].url == url then entries[..it] + [Entry(url, item)] + entries[it + 1..]
      else entries[..it] + [Entry(url, item)] + entries[it..]
  {
    if it > 0 {
      var rest := entries[1..];
      PutAt(rest, it - 1, url, item);
      assert entries[..it] == [entries[0]] + rest[..it - 1];
    }
  }

  lemma {:induction false} PutMembers(entries: seq<Entry>, it: nat, e: Entry)
    requires it <= |entries|
    ensures forall f :: f in entries[..it] + [e] + entries[it..] <==> f in entries || f == e
  {
    assert entries == entries[..it] + entries[it..];
  }

  lemma {:induction false} PutErased(entries: seq<Entry>, it: nat, url: string, item: CacheObject)
    requires Ordered(entries) && it < |entries| && entries[it].url == url
    ensures Put(entries[..it] + entries[it + 1..], url, item) == Put(entries, url, item)
  {
    var rest := entries[..it] + entries[it + 1..];
    LessTotal(url, url);
    forall k | 0 <= k < it
      ensures Less(entries[k].url, url) && entries[k].url != url
    {
      assert InOrder(entries, k, it);
      LessTotal(entries[k].url, url);
    }
    if it + 1 < |entries| {
      assert InOrder(entries, it, it + 1);
      LessTotal(url, entries[it + 1].url);
    }
    PutAt(entries, it, url, item);
    PutAt(rest, it, url, item);
  }

  /** A URL that is not in the map goes in after the smaller keys and before the larger ones. */
  lemma {:induction false} GapAt(entries: seq<Entry>, it: nat, url: string, item: CacheObject)
    requires Ordered(entries) && it <= |entries|
    requires forall e | e in entries && (e.url == url || e.item == item) :: e == Entry(url, item)
    requires forall k | 0 <= k < it :: Less(entries[k].url, url)
    requires it < |entries| ==> !Less(entries[it].url, url) && entries[it].url != url
    ensures Ordered(entries[..it] + [Entry(url, item)] + entries[it..])
    ensures forall e | e in entries :: e.url != url && e.item != item
  {
    LessTotal(url, url);
    forall k | it <= k < |entries|
      ensures Less(url, entries[k].url)
    {
      LessTotal(url, entries[it].url);
      if it < k {
        assert InOrder(entries, it, k);
        LessTransitive(url, entries[it].url, entries[k].url);
      }
    }
    forall k | 0 <= k < |entries|
      ensures entries[k].url != url && entries[k].item != item
    {
      assert entries[k] in entries;
    }
    var grown := entries[..it] + [Entry(url, item)] + entries[it..];
    forall i: nat, j: nat
      ensures InOrder(grown, i, j)
    {
      assert InOrder(entries, if i <= it then i else i - 1, if j <= it then j else j - 1);
    }
  }

  // ---- The largest URLs go first ------------------------------------------------

  /** Rows in the order of their URLs. */
  ghost predicate Ascending(rows: seq<Row>) {
    forall i, j | 0 <= i < j < |rows| :: Less(rows[i].url, rows[j].url)
  }

  /** A row that is evicted has a larger URL than every removable row that stays. */
  lemma {:induction false} LargestGoFirst(rows: seq<Row>, gone: Row, stays: Row)
    requires Ascending(rows) && gone in rows && gone !in Trimmed(rows)
    requires stays in Trimmed(rows) && Removable(stays)
    ensures stays in rows && Less(stays.url, gone.url) && Removable(gone)
  {
    var t := StopFrom(rows, |rows|);
    CutIsStop(rows, t);
    SparedMembers(rows[t..], stays);
    var i :| 0 <= i < |rows| && rows[i] == gone;
    var j :| 0 <= j < t && rows[..t][j] == stays;
    EvictionSafe(rows, t, i);
  }

  /** What eviction sees of the map is in that order. */
  lemma {:induction false} SnapshotAscends(entries: seq<Entry>, item: CacheObject)
    requires Ordered(entries)
    ensures Ascending(SnapshotOf(entries, item))
  {
    forall i, j | 0 <= i < j < |entries|
      ensures Less(entries[i].url, entries[j].url)
    {
      assert InOrder(entries, i, j);
    }
  }

  const A: string := "http://a"
  const B: string := "http://b"
  const C: string := "http://c"

  lemma {:induction false} UrlsInOrder()
    ensures Less(A, C) && Less(B, C) && !Less(C, A) && !Less(C, B) && !Less(C, C)
  {
    LessIs(A, C);
    LessIs(B, C);
    LessTotal(A, C);
    LessTotal(B, C);
    LessTotal(C, C);
    assert SmallerAt(A, C, 7) && SmallerAt(B, C, 7);
  }

  /** Three rows of five million bytes in all: the second one goes, and that is enough. */
  lemma {:induction false} SecondGoes(c: bool)
    ensures var rows := [Row(A, 2000000, false, false), Row(B, 2000000, false, false), Row(C, 1000000, c, true)];
      Trimmed(rows) == [rows[0], rows[2]]
  {
    var rows := [Row(A, 2000000, false, false), Row(B, 2000000, false, false), Row(C, 1000000, c, true)];
    var last: seq<Row> := [rows[2]];
    assert rows[3..] == [] && rows[2..] == last && rows[1..] == [rows[1]] + last && last[1..] == [];
    assert Spared(last) == last && Spared([rows[1]] + last) == last;
    assert Keep(rows, 3) == rows && Keep(rows, 2) == rows && Keep(rows, 1) == [rows[0]] + last;
    assert Total(last) == 1000000 && Total(rows[1..]) == 3000000 && Total(rows) == 5000000;
    assert StopFrom(rows, 2) == StopFrom(rows, 1) == 1 && StopFrom(rows, 3) == StopFrom(rows, 2);
  }

  /**
   Two idle entries of two million bytes each, and an object of one million is added behind them:
   of the two the one with the larger URL is evicted.
   */
  method AddThird(handler: DataStreamHandler, a: CacheObject, b: CacheObject, c: CacheObject)
    requires handler.Valid() && handler.HttpCache == [Entry(A, a), Entry(B, b)] && c in handler.live
    requires a != c && b != c && !a.IsBusy() && !b.IsBusy()
    requires a.zBufferSize == b.zBufferSize == 2000000 && c.zBufferSize == 1000000
    modifies handler
    ensures handler.Valid() && handler.HttpCache == [Entry(A, a), Entry(C, c)]
  {
    ghost var rows := [Row(A, 2000000, false, false), Row(B, 2000000, false, false), Row(C, 1000000, c.IsBusy(), true)];
    ghost var entries := handler.HttpCache;
    ThirdPut(a, b, c);
    SecondGoes(c.IsBusy());
    assert !handler.Occupied(C, c) by {
      assert A[7] != C[7] && B[7] != C[7];
    }
    var _ := handler.AddCacheObject(C, c);
    TwoLeft(handler.HttpCache, entries, [rows[0], rows[2]], c);
  }

  lemma {:induction false} TwoLeft(after: seq<Entry>, before: seq<Entry>, rows: seq<Row>, c: CacheObject)
    requires |before| == 2 && before[0].url == A && before[1].url == B && Snapshot(after, c, rows)
    requires |rows| == 2 && rows[0].url == A && rows[1].url == C && rows[1].added
    requires forall e | e in after :: e == Entry(C, c) || e in before
    ensures after == [before[0], Entry(C, c)]
  {
    assert A[7] != B[7] && A[7] != C[7] && B[7] != C[7];
    assert after[0] in after && after[1] in after;
  }

  lemma {:induction false} ThirdPut(a: CacheObject, b: CacheObject, c: CacheObject)
    requires a != c && b != c && !a.IsBusy() && !b.IsBusy()
    requires a.zBufferSize == b.zBufferSize == 2000000 && c.zBufferSize == 1000000
    ensures Put([Entry(A, a), Entry(B, b)], C, c) == [Entry(A, a), Entry(B, b), Entry(C, c)]
    ensures SnapshotOf([Entry(A, a), Entry(B, b), Entry(C, c)], c)
      == [Row(A, 2000000, false, false), Row(B, 2000000, false, false), Row(C, 1000000, c.IsBusy(), true)]
  {
    PutThird(a, b, c);
    var entries := [Entry(A, a), Entry(B, b), Entry(C, c)];
    var rows := SnapshotOf(entries, c);
    assert rows[0] == Row(A, 2000000, false, false) && rows[1] == Row(B, 2000000, false, false);
  }

  lemma {:induction false} PutThird(a: CacheObject, b: CacheObject, c: CacheObject)
    ensures Put([Entry(A, a), Entry(B, b)], C, c) == [Entry(A, a), Entry(B, b), Entry(C, c)]
  {
    var entries := [Entry(A, a), Entry(B, b)];
    UrlsInOrder();
    assert A[7] != C[7] && B[7] != C[7];
    PutAt(entries, 2, C, c);
    assert entries[..2] == entries && entries[2..] == [];
  }

  /** What inserting does to an index that has no other entry for the URL or for the object. */
  lemma {:induction false} PutIs(entries: seq<Entry>, it: nat, url: string, item: CacheObject)
    requires Ordered(entries) && it <= |entries|
    requires forall e | e in entries && (e.url == url || e.item == item) :: e == Entry(url, item)
    requires forall k | 0 <= k < it :: Less(entries[k].url, url) && entries[k].url != url
    requires it < |entries| ==> !Less(entries[it].url, url)
    ensures Put(entries, url, item) ==
      if it < |entries| && entries[it].url == url then entries else entries[..it] + [Entry(url, item)] + entries[it..]
    ensures Ordered(Put(entries, url, item))
    ensures forall e :: e in Put(entries, url, item) <==> e in entries || e == Entry(url, item)
  {
    PutAt(entries, it, url, item);
    if it == |entries| || entries[it].url != url {
      GapAt(entries, it, url, item);
      PutMembers(entries, it, Entry(url, item));
    } else {
      assert entries[it] in entries;
      assert entries == entries[..it] + [Entry(url, item)] + entries[it + 1..];
    }
  }

  /** rows is what eviction on behalf of `item` sees of the entries. */
  ghost predicate Snapshot(entries: seq<Entry>, item: CacheObject, rows: seq<Row>)
    reads set e | e in entries :: e.item
  {
    && |rows| == |entries|
    && forall i | 0 <= i < |rows| ::
         rows[i] == Row(entries[i].url, entries[i].item.zBufferSize, entries[i].item.IsBusy(),
                        entries[i].item == item)
  }

  /** An entry that eviction may not take is still there. */
  lemma {:induction false} SnapshotSpares(before: seq<Entry>, after: seq<Entry>, item: CacheObject, rows: seq<Row>,
      e: Entry)
    requires Ordered(before) && Snapshot(before, item, rows)
    requires Snapshot(after, item, Trimmed(rows))
    requires forall x | x in after :: x in before
    requires e in before && (e.item == item || e.item.IsBusy())
    ensures e in after
  {
    var i :| 0 <= i < |before| && before[i] == e;
    var t := StopFrom(rows, |rows|);
    KeepMembers(rows, t, rows[i]);
    var j :| 0 <= j < |after| && Keep(rows, t)[j] == rows[i];
    assert after[j] in before && after[j].url == e.url;
    Same(before, e);
  }

  lemma {:induction false} SnapshotErased(entries: seq<Entry>, item: CacheObject, rows: seq<Row>, it: nat)
    requires Snapshot(entries, item, rows) && it < |rows|
    ensures Snapshot(entries[..it] + entries[it + 1..], item, rows[..it] + rows[it + 1..])
  {
  }

  ghost function SnapshotOf(entries: seq<Entry>, item: CacheObject): (rows: seq<Row>)
    reads set e | e in entries :: e.item
    ensures Snapshot(entries, item, rows)
  {
    if entries == [] then [] else
      var n := |entries| - 1;
      var e := entries[n];
      SnapshotOf(entries[..n], item) + [Row(e.url, e.item.zBufferSize, e.item.IsBusy(), e.item == item)]
  }

  class DataStreamHandler {
    const zlib: Zlib
    /** std::map in key order; an iterator is a position. */
    var HttpCache: seq<Entry>
    ghost var live: set<CacheObject>
    /** All objects that this handler has ever owned. */
    ghost var made: set<CacheObject>

    ghost function Items(): set<CacheObject>
      reads this
    {
      set e | e in HttpCache :: e.item
    }

    /** Live objects that are not in the map. */
    ghost function Loose(): set<CacheObject>
      reads this
    {
      live - Items()
    }

    ghost predicate Valid()
      reads this
    {
      Ordered(HttpCache) && Items() <= live <= made
    }

    /** What the handler owns it owned before, or it is new. */
    twostate predicate OnlyNew()
      reads this
    {
      forall item | item in made :: item in old(made) || fresh(item)
    }

    constructor (zlib: Zlib)
      ensures Valid() && Loose() == {} && HttpCache == [] && made == {} && this.zlib == zlib
    {
      this.zlib := zlib;
      HttpCache, live, made := [], {}, {};
    }

    /** new CacheObject(url) */
    method Allocate(url: string) returns (item: CacheObject)
      requires Valid()
      modifies this`live, this`made
      ensures Valid() && fresh(item) && live == old(live) + {item} && made == old(made) + {item}
      ensures item.Valid() && item.View() == Nothing && item.zlib == zlib
      ensures item.headers == Headers(None, None, 0, 0, false)
    {
      item := new CacheObject(zlib, url);
      live, made := live + {item}, made + {item};
    }

    /** delete item: only of an object that is live. */
    method Delete(item: CacheObject)
      requires item in live
      modifies this`live
      ensures live == old(live) - {item}
    {
      live := live - {item};
    }

    /** HttpCache.find(url): the position of the entry, or the end. */
    method Find(url: string) returns (it: nat)
      requires Valid()
      ensures it <= |HttpCache|
      ensures it < |HttpCache| ==> HttpCache[it].url == url
      ensures it < |HttpCache| ==> forall e | e in HttpCache && e.url == url :: e == HttpCache[it]
      ensures it == |HttpCache| ==> forall e | e in HttpCache :: e.url != url
    {
      it := 0;
      while it < |HttpCache| && HttpCache[it].url != url
        invariant it <= |HttpCache|
        invariant forall k | 0 <= k < it :: HttpCache[k].url != url
      {
        it := it + 1;
      }
      if it < |HttpCache| {
        Same(HttpCache, HttpCache[it]);
      }
    }

    /** A cached object that is not BUSY, if there is one under this URL. */
    method GetCacheObject(url: string) returns (cacheObject: Option<CacheObject>)
      requires Valid()
      ensures cacheObject.Some? <==> exists e | e in HttpCache :: e.url == url && !e.item.IsBusy()
      ensures cacheObject.Some? ==> Entry(url, cacheObject.value) in HttpCache && !cacheObject.value.IsBusy()
    {
      cacheObject := None;
      var it := Find(url);
      if it != |HttpCache| && !HttpCache[it].item.IsBusy() {
        cacheObject := Some(HttpCache[it].item);
      }
    }

    /** delete (*it).second; HttpCache.erase(it) */
    method Erase(it: nat)
      requires Valid() && it < |HttpCache|
      modifies this`HttpCache, this`live
      ensures Valid()
      ensures HttpCache == old(HttpCache[..it] + HttpCache[it + 1..])
      ensures live == old(live) - {old(HttpCache[it].item)}
      ensures Loose() == old(Loose())
    {
      ghost var entries := HttpCache;
      OrderedWithout(entries, it);
      Delete(HttpCache[it].item);
      HttpCache := HttpCache[..it] + HttpCache[it + 1..];
      assert entries == entries[..it] + [entries[it]] + entries[it + 1..];
    }

    /** The summing loop of checkCacheSize. */
    method CacheSize(ghost rows: seq<Row>, ghost item: CacheObject) returns (cacheSize: nat)
      requires Snapshot(HttpCache, item, rows)
      ensures cacheSize == Total(rows)
    {
      cacheSize := 0;
      for k := 0 to |HttpCache|
        invariant cacheSize == Total(rows[..k])
      {
        cacheSize := cacheSize + HttpCache[k].item.zBufferSize;
        TotalConcat(rows[..k], [rows[k]]);
        assert rows[..k + 1] == rows[..k] + [rows[k]];
      }
      assert rows[..|HttpCache|] == rows;
    }

    /** The body of the eviction loop: the entry at `it` goes if it is removable. */
    method EvictAt(it: nat, item: CacheObject, cacheSize: nat, ghost rows: seq<Row>) returns (rest: nat)
      requires Valid() && Snapshot(HttpCache, item, rows) && it < |rows| && rows[it].size <= cacheSize
      modifies this`HttpCache, this`live
      ensures Valid() && Loose() == old(Loose())
      ensures Snapshot(HttpCache, item, if Removable(rows[it]) then rows[..it] + rows[it + 1..] else rows)
      ensures forall e | e in HttpCache :: e in old(HttpCache)
      ensures rest == if Removable(rows[it]) then cacheSize - rows[it].size else cacheSize
    {
      rest := cacheSize;
      var candidate := HttpCache[it].item;
      if candidate != item && !candidate.IsBusy() {
        rest := cacheSize - candidate.zBufferSize;
        SnapshotErased(HttpCache, item, rows, it);
        OrderedWithout(HttpCache, it);
        Erase(it);
      }
    }

    /**
     The eviction loop, from the end of the map downward. The running size is always the true
     total, so it never wraps; an erased iterator moves to its predecessor.
     */
    method EvictDownward(item: CacheObject, total: nat, ghost rows: seq<Row>)
      requires Valid() && Snapshot(HttpCache, item, rows) && total == Total(rows)
      modifies this`HttpCache, this`live
      ensures Valid() && Loose() == old(Loose())
      ensures Snapshot(HttpCache, item, Trimmed(rows))
      ensures forall e | e in HttpCache :: e in old(HttpCache)
    {
      var it, cacheSize := |HttpCache|, total;
      assert Keep(rows, it) == rows;
      while cacheSize > MAX_CACHE_SIZE && it - 1 != 0
        invariant 0 <= it <= |rows| && (it == 0 ==> rows == [])
        invariant Valid() && Loose() == old(Loose())
        invariant forall e | e in HttpCache :: e in old(HttpCache)
        invariant Snapshot(HttpCache, item, Keep(rows, it)) && cacheSize == Total(Keep(rows, it))
        invariant StopFrom(rows, it) == StopFrom(rows, |rows|)
      {
        it := it - 1;
        KeepStep(rows, it);
        cacheSize := EvictAt(it, item, cacheSize, Keep(rows, it + 1));
      }
    }

    /** Frees entries until the buffers fit the budget, starting at the largest URL. */
    method CheckCacheSize(item: CacheObject)
      requires Valid()
      modifies this`HttpCache, this`live
      ensures Valid() && Loose() == old(Loose())
      ensures Snapshot(HttpCache, item, Trimmed(old(SnapshotOf(HttpCache, item))))
      ensures forall e | e in HttpCache :: e in old(HttpCache)
      ensures forall e | e in old(HttpCache) && (e.item == item || e.item.IsBusy()) :: e in HttpCache
    {
      ghost var entries := HttpCache;
      ghost var rows := SnapshotOf(entries, item);
      var cacheSize := CacheSize(rows, item);
      EvictDownward(item, cacheSize, rows);
      forall e | e in entries && (e.item == item || e.item.IsBusy())
        ensures e in HttpCache
      {
        SnapshotSpares(entries, HttpCache, item, rows, e);
      }
    }

    /** HttpCache.insert(pair(url, item)): nothing happens if the key is there. */
    method Insert(url: string, item: CacheObject)
      requires Valid() && item in live
      requires forall e | e in HttpCache && (e.url == url || e.item == item) :: e == Entry(url, item)
      modifies this`HttpCache
      ensures Valid() && Loose() == old(Loose()) - {item} && HttpCache == Put(old(HttpCache), url, item)
      ensures forall e :: e in HttpCache <==> e in old(HttpCache) || e == Entry(url, item)
    {
      var it := 0;
      while it < |HttpCache| && Less(HttpCache[it].url, url)
        invariant 0 <= it <= |HttpCache| && HttpCache == old(HttpCache)
        invariant forall k | 0 <= k < it :: Less(HttpCache[k].url, url) && HttpCache[k].url != url
      {
        LessTotal(HttpCache[it].url, url);
        it := it + 1;
      }
      PutIs(HttpCache, it, url, item);
      if it == |HttpCache| || HttpCache[it].url != url {
        HttpCache := HttpCache[..it] + [Entry(url, item)] + HttpCache[it..];
      }
    }

    /** Another object under this URL is in use. */
    ghost predicate Occupied(url: string, item: CacheObject)
      reads this, set e | e in HttpCache :: e.item
    {
      exists e | e in HttpCache :: e.url == url && e.item != item && e.item.IsBusy()
    }

    /** The end of addCacheObject, once no other object is cached under the URL. */
    method InsertAndTrim(url: string, item: CacheObject)
      requires Valid() && item in live
      requires forall e | e in HttpCache && (e.url == url || e.item == item) :: e == Entry(url, item)
      modifies this`HttpCache, this`live
      ensures Valid() && Loose() == old(Loose()) - {item}
      ensures Snapshot(HttpCache, item, Trimmed(SnapshotOf(Put(old(HttpCache), url, item), item)))
      ensures Entry(url, item) in HttpCache
      ensures forall e | e in HttpCache :: e == Entry(url, item) || e in old(HttpCache)
      ensures forall e | e in old(HttpCache) && e.item.IsBusy() :: e in HttpCache
    {
      Insert(url, item);
      ghost var rows := SnapshotOf(HttpCache, item);
      assert Entry(url, item) in HttpCache && rows == SnapshotOf(Put(old(HttpCache), url, item), item);
      CheckCacheSize(item);
      assert Snapshot(HttpCache, item, Trimmed(rows)) && Entry(url, item) in HttpCache;
      assert rows == SnapshotOf(Put(old(HttpCache), url, item), item);
    }

    /** The entry of the URL goes, to make place for the object. */
    method Displace(it: nat, url: string, item: CacheObject)
      requires Valid() && item in live && (forall e | e in HttpCache :: e.item != item)
      requires it < |HttpCache| && HttpCache[it].url == url
      requires forall e | e in HttpCache && e.url == url :: e == HttpCache[it]
      modifies this`HttpCache, this`live
      ensures Valid() && item in live && Loose() == old(Loose())
      ensures Put(HttpCache, url, item) == Put(old(HttpCache), url, item)
      ensures forall e :: e in HttpCache <==> e in old(HttpCache) && e.url != url
    {
      PutErased(HttpCache, it, url, item);
      Erase(it);
    }

    /**
     Adds an object that is either new or already cached under this URL. A BUSY object under the
     URL wins and the new one is deleted. Otherwise the map is updated, any other object under the
     URL being deleted, and then trimmed to the budget.
     */
    method AddCacheObject(url: string, item: CacheObject) returns (ok: bool)
      requires Valid() && item in live
      requires forall e | e in HttpCache && e.item == item :: e.url == url
      modifies this`HttpCache, this`live
      ensures Valid() && ok
      ensures Loose() == old(Loose()) - {item}
      ensures old(Occupied(url, item)) ==> HttpCache == old(HttpCache) && item !in live
      ensures !old(Occupied(url, item)) ==>
        && Snapshot(HttpCache, item, Trimmed(SnapshotOf(Put(old(HttpCache), url, item), item)))
        && Entry(url, item) in HttpCache
        && (forall e | e in HttpCache :: e == Entry(url, item) || (e in old(HttpCache) && e.url != url))
        && (forall e | e in old(HttpCache) && e.url != url && e.item.IsBusy() :: e in HttpCache)
    {
      var it := Find(url);
      if it != |HttpCache| && HttpCache[it].item != item {
        if HttpCache[it].item.IsBusy() {
          Delete(item);
          return true;
        }
        Displace(it, url, item);
      }
      InsertAndTrim(url, item);
      return true;
    }

    /** ~DataStreamHandler: every cached object is deleted. */
    method Clear()
      requires Valid()
      modifies this`HttpCache, this`live
      ensures Valid() && HttpCache == [] && Loose() == old(Loose())
    {
      while HttpCache != []
        invariant Valid() && Loose() == old(Loose())
        decreases |HttpCache|
      {
        Erase(0);
      }
    }
  }
}
