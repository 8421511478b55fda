/**
 Several streams on one multi handle, read in any order: whichever of them makes libcurl run, each
 gets exactly its own bytes, in order, and none is lost. Downloads and revalidations may be mixed,
 and a stream whose read throws is taken off the handle while the others go on.
 */
module Schedules {
  import opened Bytes
  import opened Zlib
  import opened CacheObjects
  import opened HttpStreams
  import opened HttpSessions

  /** Somebody calls readBytes(size) on the stream at `who`. */
  datatype Turn = Turn(who: nat, size: nat)

  // ---- Removed handles ------------------------------------------------

  lemma {:induction false} CleanBody(ds: seq<Delivery>, gone: set<nat>, i: nat)
    requires i !in gone
    ensures BodyTo(i, Clean(ds, gone)) == BodyTo(i, ds)
  {
    if ds != [] {
      var n := |ds| - 1;
      CleanBody(ds[..n], gone, i);
      if ds[n].to !in gone {
        var rest := Clean(ds[..n], gone);
        assert (rest + [ds[n]])[..|rest|] == rest;
      }
    }
  }

  /** What comes for the other streams, and what the messages say, does not depend on the removed ones. */
  lemma {:induction false} CleanAllBody(bursts: seq<Burst>, gone: set<nat>, i: nat)
    requires i !in gone
    ensures BodyTo(i, Deliveries(CleanAll(bursts, gone))) == BodyTo(i, Deliveries(bursts))
    ensures Seen304(CleanAll(bursts, gone), i) == Seen304(bursts, i)
  {
    if bursts != [] {
      var n := |bursts| - 1;
      var all := CleanAll(bursts, gone);
      assert all[..n] == CleanAll(bursts[..n], gone);
      CleanAllBody(bursts[..n], gone, i);
      CleanBody(bursts[n].deliveries, gone, i);
      BodyToConcat(i, Deliveries(bursts[..n]), bursts[n].deliveries);
      BodyToConcat(i, Deliveries(all[..n]), all[n].deliveries);
    }
  }

  lemma {:induction false} CleanAllMembers(bursts: seq<Burst>, gone: set<nat>, d: Delivery)
    requires d in Deliveries(CleanAll(bursts, gone))
    ensures d in Deliveries(bursts)
  {
    var n := |bursts| - 1;
    var all := CleanAll(bursts, gone);
    assert all[..n] == CleanAll(bursts[..n], gone);
    if d in Deliveries(all[..n]) {
      CleanAllMembers(bursts[..n], gone, d);
    } else {
      CleanMembers(bursts[n].deliveries, gone, d);
    }
  }

  lemma {:induction false} CleanTwice(ds: seq<Delivery>, gone: set<nat>, i: nat)
    ensures Clean(Clean(ds, gone), {i}) == Clean(ds, gone + {i})
  {
    if ds != [] {
      var n := |ds| - 1;
      CleanTwice(ds[..n], gone, i);
      if ds[n].to !in gone {
        var rest := Clean(ds[..n], gone);
        assert (rest + [ds[n]])[..|rest|] == rest;
      }
    }
  }

  lemma {:induction false} CleanAllTwice(bursts: seq<Burst>, gone: set<nat>, i: nat)
    ensures CleanAll(CleanAll(bursts, gone), {i}) == CleanAll(bursts, gone + {i})
  {
    forall k | 0 <= k < |bursts|
      ensures Clean(Clean(bursts[k].deliveries, gone), {i}) == Clean(bursts[k].deliveries, gone + {i})
    {
      CleanTwice(bursts[k].deliveries, gone, i);
    }
  }

  lemma {:induction false} CleanNothing(bursts: seq<Burst>)
    ensures CleanAll(bursts, {}) == bursts
  {
    forall k | 0 <= k < |bursts|
      ensures Clean(bursts[k].deliveries, {}) == bursts[k].deliveries
    {
      CleanNone(bursts[k].deliveries);
    }
  }

  lemma {:induction false} CleanNone(ds: seq<Delivery>)
    ensures Clean(ds, {}) == ds
  {
    if ds != [] {
      CleanNone(ds[..|ds| - 1]);
    }
  }

  /** The script is at `rest`: what is left of it, less the callbacks on removed handles. */
  ghost predicate At(script: seq<Burst>, rest: seq<Burst>, gone: set<nat>) {
    |rest| <= |script| && rest == CleanAll(script[|script| - |rest|..], gone)
  }

  /** What has come for stream i by then. */
  ghost function Came(script: seq<Burst>, rest: seq<Burst>, i: nat): seq<byte> {
    BodyTo(i, Deliveries(Used(script, rest)))
  }

  lemma {:induction false} CameOn(script: seq<Burst>, rest: seq<Burst>, rest': seq<Burst>, gone: set<nat>, i: nat)
    requires At(script, rest, gone) && |rest'| <= |rest| && rest' == rest[|rest| - |rest'|..]
    ensures At(script, rest', gone)
    ensures Came(script, rest, i) <= Came(script, rest', i)
    ensures i !in gone ==> Came(script, rest', i) == Came(script, rest, i) + BodyTo(i, Deliveries(Used(rest, rest')))
  {
    var from, to := |script| - |rest|, |script| - |rest'|;
    CleanSlices(script, from, to, gone);
    CameBetween(script, from, to, i);
    assert Used(rest, rest') == rest[..to - from] && rest' == rest[to - from..];
    assert Used(script, rest) == script[..from] && Used(script, rest') == script[..to];
    if i !in gone {
      CleanAllBody(script[from..to], gone, i);
    }
  }

  lemma {:induction false} CleanSlices(script: seq<Burst>, from: nat, to: nat, gone: set<nat>)
    requires from <= to <= |script|
    ensures CleanAll(script[from..], gone)[..to - from] == CleanAll(script[from..to], gone)
    ensures CleanAll(script[from..], gone)[to - from..] == CleanAll(script[to..], gone)
  {
  }

  lemma {:induction false} CameBetween(script: seq<Burst>, from: nat, to: nat, i: nat)
    requires from <= to <= |script|
    ensures BodyTo(i, Deliveries(script[..to])) == BodyTo(i, Deliveries(script[..from])) + BodyTo(i,
      Deliveries(script[from..to]))
  {
    assert script[..to] == script[..from] + script[from..to];
    UsedConcat(script[..from], script[from..to]);
    BodyToConcat(i, Deliveries(script[..from]), Deliveries(script[from..to]));
  }

  /** All that comes for a stream in a part of the script comes in the whole. */
  lemma {:induction false} CamePart(script: seq<Burst>, rest: seq<Burst>, i: nat)
    requires |rest| <= |script|
    ensures Came(script, rest, i) <= BodyTo(i, Deliveries(script))
  {
    var k := |script| - |rest|;
    assert script == script[..k] + script[k..];
    UsedConcat(script[..k], script[k..]);
    BodyToConcat(i, Deliveries(script[..k]), Deliveries(script[k..]));
  }

  // ---- The streams as values ------------------------------------------------

  /** One stream: what has come in for it, and what its reader has. `mayServe`: it may be answered 304. */
  ghost predicate FedAt(v: Snap, came: seq<byte>, out: seq<byte>, gone: bool, mayServe: bool) {
    if gone then v.received <= came && out <= v.delivered <= v.received
    else
      && v.received == came && v.error == NONE && out == v.delivered + v.served
      && (v.fromCache ==> mayServe) && (v.served != [] ==> v.fromCache && v.use)
      && (mayServe && v.use ==> v.view.Readable())
  }

  ghost predicate Fed(script: seq<Burst>, rest: seq<Burst>, gone: set<nat>, views: seq<Snap>, outs: seq<seq<byte>>) {
    && At(script, rest, gone) && |outs| == |views|
    && forall i | 0 <= i < |views| :: FedAt(views[i], Came(script, rest, i), outs[i], i in gone, Seen304(script, i))
  }

  /** No body comes with a 304 (section 4.1 of RFC 7232), and nobody writes meanwhile what it is served from. */
  ghost predicate Fair(script: seq<Burst>, views: seq<Snap>, caches: seq<CacheObject>) {
    && |views| == |caches|
    && forall i | 0 <= i < |views| && Seen304(script, i) ::
         BodyTo(i, Deliveries(script)) == [] && (views[i].use ==> Quiet(caches, caches[i], Deliveries(script)))
  }

  /** The other streams, while one is read. */
  lemma {:induction false} FedByOthers(script: seq<Burst>, start: Start, rest: seq<Burst>, gone: set<nat>, c: seq<Snap>,
      caches: seq<CacheObject>, i: nat, out: seq<byte>)
    requires At(script, start.script, gone) && i < |start.views| && i != start.me
    requires FedAt(start.views[i], Came(script, start.script, i), out, i in gone, Seen304(script, i))
    requires Consumed(start, rest, c, caches, start.me) && Fair(script, start.views, caches)
    requires i in gone ==> BodyTo(i, Deliveries(Used(start.script, rest))) == []
    ensures FedAt(c[i], Came(script, rest, i), out, i in gone, Seen304(script, i))
  {
    CameOn(script, start.script, rest, gone, i);
    assert ConsumedAt(start.views[i], c[i], i, Deliveries(Used(start.script, rest)), false);
    if i !in gone && Seen304(script, i) && start.views[i].use {
      UsedIsQuiet(script, start.script, rest, gone, caches, i);
    }
  }

  lemma {:induction false} UsedIsQuiet(script: seq<Burst>, middle: seq<Burst>, rest: seq<Burst>, gone: set<nat>,
      caches: seq<CacheObject>, i: nat)
    requires At(script, middle, gone) && i < |caches| && Quiet(caches, caches[i], Deliveries(script))
    requires |rest| <= |middle| && rest == middle[|middle| - |rest|..]
    ensures Quiet(caches, caches[i], Deliveries(Used(middle, rest))) && Quiet(caches, caches[i], Deliveries(middle))
  {
    var from := |script| - |middle|;
    RestOfScript(script, script[from..]);
    DeliveriesPrefix(middle, |middle| - |rest|);
    forall d | d in Deliveries(middle)
      ensures d in Deliveries(script)
    {
      CleanAllMembers(script[from..], gone, d);
    }
  }

  /** The reading stream. */
  lemma {:induction false} FedByItself(start: Start, rest: seq<Burst>, a: Snap, c: Snap, came: seq<byte>,
      mayServe: bool, r: Outcome, buffer: seq<byte>, max: nat, out: seq<byte>)
    requires a.error == NONE && out == a.delivered + a.served && (a.served != [] ==> a.fromCache && a.use)
    requires a.fromCache || Seen304(Used(start.script, rest), start.me) ==> mayServe
    requires mayServe ==> came == [] && (a.use ==> c.view.Readable())
    requires Returned(start, rest, a, c, r, buffer, max) && c.received == came && c.delivered <= c.received
      && c.use == a.use
    ensures r.Count? || r.Thrown?
    ensures r.Thrown? ==> FedAt(c, came, out, true, mayServe)
    ensures r.Count? ==> r.n <= |buffer| && FedAt(c, came, out + buffer[..r.n], false, mayServe)
  {
    if r.Count? {
      if c.use && c.fromCache {
        assert c.delivered == [] && a.delivered == [];
        assert buffer[0..r.n] == buffer[..r.n];
      } else {
        assert a.served == [] && c.served == [];
      }
    }
  }

  /** Nothing more comes for the streams that are gone. */
  lemma {:induction false} NothingForGone(script: seq<Burst>, middle: seq<Burst>, rest: seq<Burst>, gone: set<nat>,
      i: nat)
    requires At(script, middle, gone) && |rest| <= |middle| && rest == middle[|middle| - |rest|..] && i in gone
    ensures BodyTo(i, Deliveries(Used(middle, rest))) == []
  {
    var from, to := |script| - |middle|, |script| - |rest|;
    CleanSlices(script, from, to, gone);
    NothingGone(script[from..to], gone, i);
  }

  lemma {:induction false} NothingGone(bursts: seq<Burst>, gone: set<nat>, i: nat)
    requires i in gone
    ensures BodyTo(i, Deliveries(CleanAll(bursts, gone))) == []
  {
    if bursts != [] {
      var n := |bursts| - 1;
      var all := CleanAll(bursts, gone);
      assert all[..n] == CleanAll(bursts[..n], gone);
      NothingGone(bursts[..n], gone, i);
      NothingClean(bursts[n].deliveries, gone, i);
      BodyToConcat(i, Deliveries(all[..n]), all[n].deliveries);
    }
  }

  lemma {:induction false} NothingClean(ds: seq<Delivery>, gone: set<nat>, i: nat)
    requires i in gone
    ensures BodyTo(i, Clean(ds, gone)) == []
  {
    if ds != [] {
      var n := |ds| - 1;
      NothingClean(ds[..n], gone, i);
      if ds[n].to !in gone {
        var rest := Clean(ds[..n], gone);
        assert (rest + [ds[n]])[..|rest|] == rest;
      }
    }
  }

  lemma {:induction false} FedByAll(script: seq<Burst>, start: Start, rest: seq<Burst>, gone: set<nat>, c: seq<Snap>,
      caches: seq<CacheObject>, outs: seq<seq<byte>>)
    requires Fed(script, start.script, gone, start.views, outs) && Fair(script, start.views, caches)
    requires Consumed(start, rest, c, caches, start.me)
    ensures |c| == |outs|
    ensures forall i | 0 <= i < |c| && i != start.me ::
      FedAt(c[i], Came(script, rest, i), outs[i], i in gone, Seen304(script, i))
  {
    forall i | 0 <= i < |c| && i != start.me
      ensures FedAt(c[i], Came(script, rest, i), outs[i], i in gone, Seen304(script, i))
    {
      assert FedAt(start.views[i], Came(script, start.script, i), outs[i], i in gone, Seen304(script, i));
      if i in gone {
        NothingForGone(script, start.script, rest, gone, i);
      }
      FedByOthers(script, start, rest, gone, c, caches, i, outs[i]);
    }
  }

  /** One call of readBytes as a step of Fed. */
  lemma {:induction false} FedOnce(script: seq<Burst>, start: Start, rest: seq<Burst>, gone: set<nat>, c: seq<Snap>,
      caches: seq<CacheObject>, r: Outcome, buffer: seq<byte>, max: nat, outs: seq<seq<byte>>)
    requires Fed(script, start.script, gone, start.views, outs) && Fair(script, start.views, caches)
    requires start.me < |c| && start.me !in gone
    requires Consumed(start, rest, c, caches, start.me)
    requires Returned(start, rest, start.views[start.me], c[start.me], r, buffer, max)
    requires c[start.me].delivered <= c[start.me].received
    ensures r.Count? || r.Thrown?
    ensures At(script, rest, gone) && |c| == |outs|
    ensures forall i | 0 <= i < |c| && i != start.me ::
      FedAt(c[i], Came(script, rest, i), outs[i], i in gone, Seen304(script, i))
    ensures var me := start.me; var came, mayServe := Came(script, rest, me), Seen304(script, me);
      if r.Thrown? then FedAt(c[me], came, outs[me], true, mayServe)
      else r.Count? && r.n <= |buffer| && FedAt(c[me], came, outs[me] + buffer[..r.n], false, mayServe)
  {
    var me, a := start.me, start.views[start.me];
    FedByAll(script, start, rest, gone, c, caches, outs);
    CameOn(script, start.script, rest, gone, me);
    assert FedAt(a, Came(script, start.script, me), outs[me], false, Seen304(script, me));
    assert ConsumedAt(a, c[me], me, Deliveries(Used(start.script, rest)), true);
    SeenIsSeen(script, start.script, rest, gone, me);
    if Seen304(script, me) {
      CamePart(script, rest, me);
      if a.use {
        UsedIsQuiet(script, start.script, rest, gone, caches, me);
      }
    }
    FedByItself(start, rest, a, c[me], Came(script, rest, me), Seen304(script, me), r, buffer, max, outs[me]);
  }

  /** A 304 in a part of the script is one in the whole. */
  lemma {:induction false} SeenIsSeen(script: seq<Burst>, middle: seq<Burst>, rest: seq<Burst>, gone: set<nat>, i: nat)
    requires At(script, middle, gone) && |rest| <= |middle| && rest == middle[|middle| - |rest|..] && i !in gone
    ensures Seen304(Used(middle, rest), i) || Seen304(middle, i) ==> Seen304(script, i)
  {
    var from := |script| - |middle|;
    CleanAllBody(script[from..], gone, i);
    RestOfScript(script, script[from..]);
    SeenInPart(middle, |middle| - |rest|, i);
  }

  lemma {:induction false} SeenInPart(bursts: seq<Burst>, k: nat, i: nat)
    requires k <= |bursts|
    ensures Seen304(bursts[..k], i) ==> Seen304(bursts, i)
  {
    DeliveriesPrefix(bursts, k);
  }

  ghost predicate Tracked(m: Multi, script: seq<Burst>, outs: seq<seq<byte>>)
    reads m`script, m`gone, m.Streams(), m.Caches()
  {
    && m.Wired() && m.Scripted() && m.Resting(|m.handles|)
    && Fed(script, m.script, m.gone, ViewsOf(m.handles), outs) && Fair(script, ViewsOf(m.handles), CachesOf(m.handles))
  }

  /** A stream that turns to its cache object may do so. */
  lemma {:induction false} MayServe(m: Multi, script: seq<Burst>, outs: seq<seq<byte>>, me: nat)
    requires Tracked(m, script, outs) && me < |m.handles| && me !in m.gone
    ensures m.handles[me].ServeSafe(m, me)
  {
    var s, v := m.handles[me], ViewsOf(m.handles)[me];
    assert FedAt(v, Came(script, m.script, me), outs[me], false, Seen304(script, me));
    assert m.script == m.script[0..];
    SeenIsSeen(script, m.script, m.script, m.gone, me);
    if s.bUseCache && Seen304(script, me) {
      UsedIsQuiet(script, m.script, m.script, m.gone, CachesOf(m.handles), me);
    }
  }

  /** All streams but one are tracked; `v` is what that one looks like. */
  ghost predicate TrackedBut(m: Multi, script: seq<Burst>, outs: seq<seq<byte>>, me: nat)
    reads m`script, m`gone, m.Streams(), m.Caches()
  {
    && m.Wired() && m.Scripted() && m.Resting(me) && At(script, m.script, m.gone) && |outs| == |m.handles|
    && Fair(script, ViewsOf(m.handles), CachesOf(m.handles))
    && OthersFed(script, m.script, m.gone, ViewsOf(m.handles), outs, me)
  }

  ghost predicate OthersFed(script: seq<Burst>, rest: seq<Burst>, gone: set<nat>, views: seq<Snap>,
      outs: seq<seq<byte>>, me: nat)
    requires |outs| == |views|
  {
    forall i | 0 <= i < |views| && i != me :: FedAt(views[i], Came(script, rest, i), outs[i], i in gone,
      Seen304(script, i))
  }

  lemma {:induction false} FairStays(script: seq<Burst>, start: Start, rest: seq<Burst>, c: seq<Snap>,
      caches: seq<CacheObject>)
    requires Fair(script, start.views, caches) && Consumed(start, rest, c, caches, start.me)
    ensures Fair(script, c, caches)
  {
    forall i | 0 <= i < |c|
      ensures c[i].use == start.views[i].use
    {
      assert ConsumedAt(start.views[i], c[i], i, Deliveries(Used(start.script, rest)), i == start.me);
    }
  }

  /** All the streams between two turns: what is left of the script, who is gone, what the readers have. */
  datatype Moment = Moment(rest: seq<Burst>, views: seq<Snap>, gone: set<nat>, outs: seq<seq<byte>>)

  /** What readBytes returned in a turn, with the caller's buffer, and where it left the script. */
  datatype Deed = Idle | Deed(r: Outcome, data: seq<byte>, rest: seq<Burst>)

  /**
   One turn: readBytes uses the shortest part of the script that brings it to its end, and its reader
   gets what it returns; if it throws, the stream is taken off. Nobody reads a stream that is gone.
   */
  ghost predicate Took(a: Moment, turn: Turn, deed: Deed, b: Moment) {
    var me := turn.who;
    if me >= |a.views| || me in a.gone then deed == Idle && b == a
    else
      && deed.Deed? && |b.views| == |a.views| && me < |a.outs|
      && var start := Start(a.rest, a.views, a.views[me].delivered, a.views[me].fromCache, me);
         && StopsRight(start, deed.rest, b.views[me], turn.size)
         && Returned(start, deed.rest, a.views[me], b.views[me], deed.r, deed.data, turn.size)
         && if deed.r.Thrown? then b == Moment(CleanAll(deed.rest, {me}), b.views, a.gone + {me}, a.outs)
            else deed.r.Count? && deed.r.n <= |deed.data|
                 && b == Moment(deed.rest, b.views, a.gone, a.outs[me := a.outs[me] + deed.data[..deed.r.n]])
  }

  /** Moments before and after each turn. */
  ghost predicate ToldAt(moments: seq<Moment>, turns: seq<Turn>, deeds: seq<Deed>, k: nat) {
    k < |turns| && k < |deeds| && k + 1 < |moments| ==> Took(moments[k], turns[k], deeds[k], moments[k + 1])
  }

  ghost predicate Tells(moments: seq<Moment>, turns: seq<Turn>, deeds: seq<Deed>) {
    |moments| == |deeds| + 1 && |deeds| <= |turns| && forall k: nat :: ToldAt(moments, turns, deeds, k)
  }

  lemma {:induction false} TellsSnoc(moments: seq<Moment>, turns: seq<Turn>, deeds: seq<Deed>, deed: Deed, b: Moment)
    requires Tells(moments, turns, deeds) && |deeds| < |turns|
    requires Took(moments[|deeds|], turns[|deeds|], deed, b)
    ensures Tells(moments + [b], turns, deeds + [deed]) && (moments + [b])[|deeds + [deed]|] == b
  {
    forall k: nat
      ensures ToldAt(moments + [b], turns, deeds + [deed], k)
    {
      assert ToldAt(moments, turns, deeds, k);
    }
  }

  ghost function MomentOf(m: Multi, outs: seq<seq<byte>>): Moment
    reads m`script, m`gone, m.Streams(), m.Caches()
  {
    Moment(m.script, ViewsOf(m.handles), m.gone, outs)
  }

  /** What readBytes did to the streams in its turn, as far as Fed is concerned. */
  ghost predicate Turned(rest: seq<Burst>, before: seq<Burst>, gone: set<nat>, script: seq<Burst>, start: Start,
      c: seq<Snap>, caches: seq<CacheObject>, me: nat, r: Outcome, data: seq<byte>, size: nat, outs: seq<seq<byte>>)
  {
    && start.me == me < |c| == |start.views| && start.script == before && |rest| <= |before|
    && Consumed(start, rest, c, caches, me) && Returned(start, rest, start.views[me], c[me], r, data, size)
    && StopsRight(start, rest, c[me], size)
    && start == Start(before, start.views, start.views[me].delivered, start.views[me].fromCache, me)
    && c[me].delivered <= c[me].received
    && Fed(script, before, gone, start.views, outs) && Fair(script, start.views, caches)
  }

  method ReadInto(m: Multi, me: nat, buffer: array<byte>, size: nat, ghost script: seq<Burst>,
      ghost outs: seq<seq<byte>>)
    returns (r: Outcome, data: seq<byte>, ghost start: Start, ghost c: seq<Snap>)
    requires Tracked(m, script, outs) && me < |m.handles| && me !in m.gone && size <= buffer.Length
    modifies m`script, m`running, m.Streams(), m.Caches(), buffer
    ensures m.Wired() && m.Scripted() && m.Resting(me) && (r.Count? ==> m.handles[me].fBytesToRead == 0)
    ensures c == ViewsOf(m.handles) && start.views == old(ViewsOf(m.handles))
    ensures Turned(m.script, old(m.script), m.gone, script, start, c, CachesOf(m.handles), me, r, data, size, outs)
  {
    MayServe(m, script, outs, me);
    r, start := m.handles[me].ReadBytes(m, me, buffer, size);
    c, data := ViewsOf(m.handles), buffer[..];
    StreamSound(m.handles[me]);
    assert c[me] == m.handles[me].View();
  }

  method ReadStream(m: Multi, me: nat, size: nat, ghost script: seq<Burst>, ghost outs: seq<seq<byte>>)
    returns (r: Outcome, data: seq<byte>, ghost start: Start, ghost c: seq<Snap>)
    requires Tracked(m, script, outs) && me < |m.handles| && me !in m.gone
    modifies m`script, m`running, m.Streams(), m.Caches()
    ensures m.Wired() && m.Scripted() && m.Resting(me) && (r.Count? ==> m.handles[me].fBytesToRead == 0)
    ensures c == ViewsOf(m.handles) && start.views == old(ViewsOf(m.handles))
    ensures Turned(m.script, old(m.script), m.gone, script, start, c, CachesOf(m.handles), me, r, data, size, outs)
  {
    var buffer := NewBuffer(m, size, script, outs);
    r, data, start, c := ReadInto(m, me, buffer, size, script, outs);
  }

  /** The caller's buffer. */
  method NewBuffer(ghost m: Multi, size: nat, ghost script: seq<Burst>, ghost outs: seq<seq<byte>>)
    returns (buffer: array<byte>)
    requires Tracked(m, script, outs)
    ensures fresh(buffer) && buffer.Length == size
    ensures Tracked(m, script, outs) && ViewsOf(m.handles) == old(ViewsOf(m.handles))
  {
    buffer := new byte[size];
  }

  /** One call of readBytes: the bytes it gave, or None if it threw. */
  method ReadTurn(m: Multi, me: nat, size: nat, ghost script: seq<Burst>,
      ghost outs: seq<seq<byte>>) returns (got: Option<seq<byte>>, deed: Deed)
    requires Tracked(m, script, outs) && me < |m.handles| && me !in m.gone
    modifies m`script, m`running, m.Streams(), m.Caches()
    ensures TrackedBut(m, script, outs, me) && |m.script| <= |old(m.script)|
    ensures var v := ViewsOf(m.handles)[me]; var came, mayServe := Came(script, m.script, me), Seen304(script, me);
      if got.Some? then FedAt(v, came, outs[me] + got.value, false, mayServe) else FedAt(v, came, outs[me], true,
        mayServe)
    ensures got.Some? ==> m.handles[me].fBytesToRead == 0
    ensures deed.Deed? && deed.rest == m.script && (got.Some? ==> deed.r.Count?) && (got.None? ==> deed.r.Thrown?)
    ensures got.Some? ==> deed.r.n <= |deed.data| && got.value == deed.data[..deed.r.n]
    ensures var a, c := old(ViewsOf(m.handles)), ViewsOf(m.handles);
      && |a| == |c| && var start := Start(old(m.script), a, a[me].delivered, a[me].fromCache, me);
         StopsRight(start, m.script, c[me], size) && Returned(start, m.script, a[me], c[me], deed.r, deed.data, size)
  {
    var r, data; ghost var start, c;
    r, data, start, c := ReadStream(m, me, size, script, outs);
    FairStays(script, start, m.script, c, CachesOf(m.handles));
    FedOnce(script, start, m.script, m.gone, c, CachesOf(m.handles), r, data, size, outs);
    got := if r.Count? then Some(data[..r.n]) else None;
    deed := Deed(r, data, m.script);
  }

  lemma {:induction false} AllFed(script: seq<Burst>, rest: seq<Burst>, gone: set<nat>, views: seq<Snap>,
      outs: seq<seq<byte>>, me: nat, out: seq<byte>)
    requires At(script, rest, gone) && |outs| == |views| && me < |views|
      && OthersFed(script, rest, gone, views, outs, me)
    requires FedAt(views[me], Came(script, rest, me), out, false, Seen304(script, me)) && me !in gone
    ensures Fed(script, rest, gone, views, outs[me := out])
  {
  }

  lemma {:induction false} FedRemoved(script: seq<Burst>, rest: seq<Burst>, gone: set<nat>, views: seq<Snap>,
      outs: seq<seq<byte>>, me: nat)
    requires At(script, rest, gone) && |outs| == |views| && me < |views|
      && OthersFed(script, rest, gone, views, outs, me)
    requires FedAt(views[me], Came(script, rest, me), outs[me], true, Seen304(script, me))
    ensures Fed(script, CleanAll(rest, {me}), gone + {me}, views, outs)
  {
    CleanAllTwice(script[|script| - |rest|..], gone, me);
    assert Used(script, CleanAll(rest, {me})) == Used(script, rest);
  }

  /** One call of readBytes; a stream whose read throws is taken off. */
  method TakeTurn(m: Multi, turn: Turn, ghost script: seq<Burst>, outs: seq<seq<byte>>)
    returns (outs': seq<seq<byte>>, deed: Deed)
    requires Tracked(m, script, outs) && turn.who < |m.handles| && turn.who !in m.gone
    modifies m`script, m`running, m`gone, m.Streams(), m.Caches()
    ensures Tracked(m, script, outs') && |m.script| <= |old(m.script)|
    ensures Took(old(MomentOf(m, outs)), turn, deed, MomentOf(m, outs'))
  {
    var me := turn.who;
    var got;
    got, deed := ReadTurn(m, me, turn.size, script, outs);
    outs' := outs;
    if got.Some? {
      outs' := outs[me := outs[me] + got.value];
      AllFed(script, m.script, m.gone, ViewsOf(m.handles), outs, me, outs'[me]);
    } else {
      FedRemoved(script, m.script, m.gone, ViewsOf(m.handles), outs, me);
      m.Remove(me);
    }
  }

  lemma {:induction false} FedAtFirst(script: seq<Burst>, views: seq<Snap>)
    requires forall i | 0 <= i < |views| ::
      && views[i].received == views[i].delivered == views[i].served == [] && views[i].error == NONE
        && !views[i].fromCache
      && (Seen304(script, i) && views[i].use ==> views[i].view.Readable())
    ensures Fed(script, script, {}, views, seq(|views|, _ => []))
  {
    assert Used(script, script) == [] && script[0..] == script;
    CleanNothing(script);
  }

  /** What the readers have, in the end. */
  ghost predicate Conserved(m: Multi, script: seq<Burst>, outs: seq<seq<byte>>)
    reads m`script, m`gone, m.Streams(), m.Caches()
  {
    && |outs| == |m.handles|
    && forall i | 0 <= i < |outs| :: ConservedAt(m.handles[i], Came(script, m.script, i), outs[i], i in m.gone)
  }

  /**
   A reader has what its stream delivered from the network and then from its cache object; delivered
   bytes and overflow buffer together are all that libcurl brought for the stream.
   */
  ghost predicate ConservedAt(s: HttpStream, came: seq<byte>, out: seq<byte>, gone: bool)
    reads s
  {
    if gone then out <= came
    else
      && out == s.delivered + s.served && s.delivered + s.fBuffer == came
      && (s.served != [] ==> s.bStreamFromCache && s.bUseCache)
  }

  /**
   Conservation over whole runs, for any schedule of reads on any number of streams, downloads and
   revalidations mixed. A read that throws takes its stream off, and its reader may miss the bytes of
   that last read; all the others go on and miss nothing. `deeds` are what the turns came to.
   */
  method RunSchedule(m: Multi, turns: seq<Turn>)
    returns (outs: seq<seq<byte>>, deeds: seq<Deed>, ghost moments: seq<Moment>)
    requires m.Wired() && m.Scripted() && m.Resting(|m.handles|) && m.gone == {}
    requires Fair(m.script, ViewsOf(m.handles), CachesOf(m.handles))
    requires forall i | 0 <= i < |m.handles| :: var v := ViewsOf(m.handles)[i];
      && v.received == v.delivered == v.served == [] && v.error == NONE && !v.fromCache
      && (Seen304(m.script, i) && v.use ==> v.view.Readable())
    modifies m`script, m`running, m`gone, m.Streams(), m.Caches()
    ensures m.Wired() && Conserved(m, old(m.script), outs)
    ensures |deeds| == |turns| && Tells(moments, turns, deeds)
    ensures moments[0] == Moment(old(m.script), old(ViewsOf(m.handles)), {}, seq(|m.handles|, _ => []))
    ensures moments[|turns|] == MomentOf(m, outs)
  {
    ghost var script := m.script;
    FedAtFirst(script, ViewsOf(m.handles));
    outs, deeds := seq(|m.handles|, _ => []), [];
    moments := [MomentOf(m, outs)];
    for k := 0 to |turns|
      invariant Tracked(m, script, outs)
      invariant |deeds| == k && Tells(moments, turns, deeds) && moments[k] == MomentOf(m, outs)
      invariant moments[0] == Moment(script, old(ViewsOf(m.handles)), {}, seq(|m.handles|, _ => []))
    {
      var deed := Idle;
      ghost var before := moments[k];
      if turns[k].who < |m.handles| && turns[k].who !in m.gone {
        outs, deed := TakeTurn(m, turns[k], script, outs);
      }
      TellsSnoc(moments, turns, deeds, deed, MomentOf(m, outs));
      deeds, moments := deeds + [deed], moments + [MomentOf(m, outs)];
    }
    forall i | 0 <= i < |outs|
      ensures ConservedAt(m.handles[i], Came(script, m.script, i), outs[i], i in m.gone)
    {
      assert m.handles[i] in m.handles && ViewsOf(m.handles)[i] == m.handles[i].View();
      assert FedAt(m.handles[i].View(), Came(script, m.script, i), outs[i], i in m.gone, Seen304(script, i));
      StreamSound(m.handles[i]);
    }
  }

  const REFUSED: Burst := Burst([], false, [Done(CURLE_COULDNT_CONNECT)], 0, [])

  lemma {:induction false} OnlyRefused(rest: seq<Burst>)
    requires |rest| <= 1 && rest == [REFUSED][1 - |rest|..]
    ensures Deliveries(Used([REFUSED], rest)) == [] && !Seen304(Used([REFUSED], rest), 0) && !Seen304([REFUSED], 0)
    ensures RanDown(Used([REFUSED], rest), rest) ==> ErrorOf(Used([REFUSED], rest), 0).Some?
  {
    assert [REFUSED][..0] == [] && [REFUSED][..1] == [REFUSED];
    assert FirstError(REFUSED.messages, 0).Some?;
    if |rest| == 0 {
      assert Used([REFUSED], rest) == [REFUSED];
    } else {
      assert Used([REFUSED], rest) == [];
    }
  }

  /** A new stream whose connection is refused: the read throws, with nothing delivered. */
  lemma {:induction false} RefusedThrows(start: Start, rest: seq<Burst>, a: Snap, c: Snap, r: Outcome,
      buffer: seq<byte>)
    requires start.script == [REFUSED] && start.me == 0 && |rest| <= 1 && rest == [REFUSED][1 - |rest|..]
    requires a.received == a.delivered == a.served == [] && a.error == NONE && !a.fromCache
    requires Returned(start, rest, a, c, r, buffer, 10)
      && c.received == a.received + BodyTo(0, Deliveries(Used(start.script, rest)))
    requires c.delivered <= c.received && (r == Count(0) ==> RanDown(Used(start.script, rest), rest))
    ensures r.Thrown? && c.delivered == []
  {
    OnlyRefused(rest);
    assert BodyTo(0, []) == [] && c.received == [] && c.delivered == [] && !c.fromCache;
    var b := a.(use := c.use, fromCache := c.fromCache);
    assert Answer(b, 10) == [] && Counted(b, 0, 10) == 0;
  }

  method ReadRefused(s: HttpStream, m: Multi, buffer: array<byte>)
    requires m.handles == [s] && m.Wired() && m.Scripted() && m.script == [REFUSED] && buffer.Length == 10
    requires s.fBytesToRead == 0 && s.received == s.delivered == s.served == []
    requires s.mErrorCode == NONE && !s.bStreamFromCache
    modifies m`script, m`running, s, s.cacheObject, buffer
    ensures s.fBytesToRead == 10
  {
    ghost var a := s.View();
    OnlyRefused([REFUSED]);
    ghost var start;
    var r;
    r, start := ReadAlone(s, m, buffer, 10);
    assert start.views[0] == a && ConsumedAt(a, [s.View()][0], 0, Deliveries(Used(start.script, m.script)), true);
    RefusedThrows(start, m.script, a, s.View(), r, buffer[..]);
  }

  /**
   A read that throws before it is full leaves its request open: fBytesToRead is not 0 although no
   readBytes is under way. Here a connection is refused.
   */
  method ThrowLeavesRequest(zlib: Zlib) returns (s: HttpStream)
    ensures s.fBytesToRead == 10
  {
    var cache := new CacheObject(zlib, "http://host/");
    s := new HttpStream("http://host/", cache, true);
    var m := new Multi([s], [REFUSED]);
    AliveWiredNew(s, m);
    var buffer := new byte[10];
    ReadRefused(s, m, buffer);
  }

  lemma {:induction false} AliveWiredNew(s: HttpStream, m: Multi)
    requires m.handles == [s] && s.Conserved() && s.cacheObject.Valid() && m.gone == {}
    requires m.script == [REFUSED] || m.script == [TEN_BYTES, BROKEN]
    ensures m.Wired() && m.Scripted()
  {
  }

  // ---- A read that stops in time ------------------------------------------------

  const TEN: seq<byte> := [0, 1, 2, 3, 4, 5, 6, 7, 8, 9]
  const TEN_BYTES: Burst := Burst([Delivery(0, Body(TEN))], false, [], 1, [])
  const BROKEN: Burst := Burst([], false, [Done(CURLE_RECV_ERROR)], 0, [])

  /** What the two bursts bring and say, and where a call stops. */
  lemma {:induction false} TenThenBroken(a: Snap)
    requires !a.fromCache && HeldBy(a) == 0
    ensures StopsAfter([TEN_BYTES, BROKEN], 1, 0, a, 4096) && [TEN_BYTES, BROKEN][..1] == [TEN_BYTES]
    ensures BodyTo(0, Deliveries([TEN_BYTES])) == TEN && ErrorOf([TEN_BYTES], 0) == None && !Seen304([TEN_BYTES], 0)
    ensures StopsAfter([BROKEN], 1, 0, a, 4096) && [BROKEN][..1] == [BROKEN]
    ensures ErrorOf([BROKEN], 0) == Some(READ_FAILED)
    ensures !Seen304([TEN_BYTES, BROKEN], 0) && !Seen304([BROKEN], 0)
  {
    var script := [TEN_BYTES, BROKEN];
    assert script[..0] == [] && script[..1] == [TEN_BYTES] && [TEN_BYTES][..0] == [] && [BROKEN][..0] == [];
    assert TEN_BYTES.deliveries[..0] == [] && Deliveries([TEN_BYTES]) == [] + TEN_BYTES.deliveries;
    assert BodyTo(0, TEN_BYTES.deliveries) == [] + TEN && !AsksAgain(TEN_BYTES);
    assert BodyTo(0, Deliveries([])) == [] && !Satisfied([], 0, 0, 4096);
  }

  /** The first call stops after the first burst, as there are bytes and libcurl does not ask to be called again. */
  lemma {:induction false} TenCounted(start: Start, rest: seq<Burst>, a: Snap, c: Snap, r: Outcome, buffer: seq<byte>)
    requires start.script == [TEN_BYTES, BROKEN] && start.me == 0 && start.views == [a]
    requires HeldBy(a) == 0 && a.error == NONE && !a.fromCache
    requires StopsRight(start, rest, c, 4096) && Returned(start, rest, a, c, r, buffer, 4096)
    requires |rest| <= 2 && rest == start.script[2 - |rest|..]
    ensures r == Count(10) && rest == [BROKEN] && |c.delivered| == |a.delivered| + 10
    ensures Used(start.script, rest) == [TEN_BYTES] && c.error == NONE && !c.fromCache
  {
    TenThenBroken(a);
    StopsOnce(start.script, 1, 0, a, 4096);
  }

  /** The next call finds nothing but the error. */
  lemma {:induction false} BrokenThrows(start: Start, rest: seq<Burst>, a: Snap, c: Snap, r: Outcome,
      buffer: seq<byte>)
    requires start.script == [BROKEN] && start.me == 0 && start.views == [a]
    requires HeldBy(a) == 0 && a.error == NONE && !a.fromCache
    requires StopsRight(start, rest, c, 4096) && Returned(start, rest, a, c, r, buffer, 4096)
    requires |rest| <= 1 && rest == start.script[1 - |rest|..]
    ensures r == Thrown(READ_FAILED)
  {
    TenThenBroken(a);
    StopsOnce(start.script, 1, 0, a, 4096);
  }

  /** readBytes(4096) on a stream with nothing in its overflow buffer. */
  method ReadPlain(s: HttpStream, m: Multi, buffer: array<byte>) returns (r: Outcome, ghost start: Start)
    requires m.handles == [s] && m.Wired() && m.Scripted() && buffer.Length == 4096
    requires m.script == [TEN_BYTES, BROKEN] || m.script == [BROKEN]
    requires s.fBytesToRead == 0 && !s.bStreamFromCache && |s.received| == |s.delivered|
    modifies m`script, m`running, s, s.cacheObject, buffer
    ensures m.Wired() && m.Scripted() && (r.Thrown? || s.fBytesToRead == 0)
    ensures start.script == old(m.script) && start.me == 0 && start.views == [old(s.View())]
    ensures StopsRight(start, m.script, s.View(), 4096)
    ensures Returned(start, m.script, old(s.View()), s.View(), r, buffer[..], 4096)
    ensures |m.script| <= |start.script| && m.script == start.script[|start.script| - |m.script|..]
    ensures s.received == old(s.received) + BodyTo(0, Deliveries(Used(start.script, m.script)))
  {
    ghost var a := s.View();
    TenThenBroken(a);
    r, start := ReadAlone(s, m, buffer, 4096);
    assert ConsumedAt(start.views[0], [s.View()][0], 0, Deliveries(Used(start.script, m.script)), true);
  }

  method ReadTwice(s: HttpStream, m: Multi, buffer: array<byte>) returns (first: Outcome, second: Outcome)
    requires m.handles == [s] && m.Wired() && m.Scripted() && m.script == [TEN_BYTES, BROKEN] && buffer.Length == 4096
    requires s.fBytesToRead == 0 && s.received == s.delivered == []
    requires s.mErrorCode == NONE && !s.bStreamFromCache
    modifies m`script, m`running, s, s.cacheObject, buffer
    ensures first == Count(10) && second == Thrown(READ_FAILED)
  {
    ghost var a := s.View();
    TenThenBroken(a);
    ghost var start;
    first, start := ReadPlain(s, m, buffer);
    ghost var b := s.View();
    TenCounted(start, m.script, a, b, first, buffer[..]);
    second, start := ReadPlain(s, m, buffer);
    BrokenThrows(start, m.script, b, s.View(), second, buffer[..]);
  }

  /**
   Ten bytes come, and the transfer breaks off in the next burst: the first read gives the ten bytes,
   and the second one throws.
   */
  method ReadBeforeError(zlib: Zlib) returns (first: Outcome, second: Outcome)
    ensures first == Count(10) && second == Thrown(READ_FAILED)
  {
    var cache := new CacheObject(zlib, "http://host/");
    var s := new HttpStream("http://host/", cache, true);
    var m := new Multi([s], [TEN_BYTES, BROKEN]);
    AliveWiredNew(s, m);
    var buffer := new byte[4096];
    first, second := ReadTwice(s, m, buffer);
  }
}
