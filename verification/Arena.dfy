/**
 The arena allocator: for every allocator and thread a list of chunks, each cut off from the
 front. Calls of different threads touch different entries, so a run is a sequence of calls.
 */
module Arena {
  import opened Wrappers

  type Byte = bv8

  datatype Mode = Own | Stylesheet | Global

  /** `area` names the block malloc returned; the first `offset` bytes of it are handed out. */
  datatype Chunk = Chunk(area: nat, size: nat, offset: nat)

  /** The entry of a thread; its tail is the last chunk. */
  datatype Entry = Entry(mode: Mode, chunks: seq<Chunk>)

  /** An allocator and a thread. */
  type Key = (nat, nat)

  /** What an allocation returned: bytes of one area. */
  datatype Region = Region(area: nat, from: nat, len: nat)

  predicate Apart(a: Region, b: Region) {
    a.area != b.area || a.from + a.len <= b.from || b.from + b.len <= a.from
  }

  // ---------- space ----------

  function Total(chunks: seq<Chunk>): nat {
    if |chunks| == 0 then 0 else Total(chunks[..|chunks| - 1]) + chunks[|chunks| - 1].size
  }

  /** Each chunk is at least twice its predecessor. */
  ghost predicate Doubling(chunks: seq<Chunk>) {
    forall i :: 0 < i < |chunks| ==> chunks[i].size >= 2 * chunks[i - 1].size
  }

  lemma {:induction false} BeforeLast(chunks: seq<Chunk>)
    requires |chunks| > 0 && Doubling(chunks)
    ensures Total(chunks) + chunks[0].size <= 2 * chunks[|chunks| - 1].size
    decreases |chunks|
  {
    var before := chunks[..|chunks| - 1];
    if |chunks| == 1 {
      assert Total(before) == 0;
    } else {
      BeforeLast(before);
      assert chunks[|chunks| - 1].size >= 2 * chunks[|chunks| - 1 - 1].size;
    }
  }

  function Power2(n: nat): nat {
    if n == 0 then 1 else 2 * Power2(n - 1)
  }

  lemma {:induction false} LastIsLarge(chunks: seq<Chunk>, n: nat)
    requires n < |chunks| && Doubling(chunks)
    ensures Power2(n) * chunks[0].size <= chunks[n].size
    decreases n
  {
    if n > 0 {
      LastIsLarge(chunks, n - 1);
      assert chunks[n].size >= 2 * chunks[n - 1].size;
      assert Power2(n) * chunks[0].size == 2 * (Power2(n - 1) * chunks[0].size);
    }
  }

  /** The bytes in use. */
  function Used(chunks: seq<Chunk>): nat {
    if |chunks| == 0 then 0 else Used(chunks[..|chunks| - 1]) + chunks[|chunks| - 1].offset
  }

  /** Once the entry has grown, less than four times the bytes in use are reserved. */
  ghost predicate Thrifty(chunks: seq<Chunk>) {
    |chunks| > 0 && Doubling(chunks) && (|chunks| > 1 ==> Total(chunks) < 4 * Used(chunks))
  }

  /** So the number of chunks is at most logarithmic. */
  lemma FewChunks(chunks: seq<Chunk>)
    requires Thrifty(chunks) && |chunks| > 1
    ensures Power2(|chunks| - 1) * chunks[0].size < 4 * Used(chunks)
  {
    LastIsLarge(chunks, |chunks| - 1);
  }

  function Larger(a: nat, b: nat): nat {
    if a > b then a else b
  }

  /** The bytes fit behind those of the last chunk. */
  predicate Fits(e: Entry, size: nat)
    requires |e.chunks| > 0
  {
    var last := e.chunks[|e.chunks| - 1];
    last.offset + size <= last.size
  }

  /** A new chunk of twice the size wanted or of the chunk before, whichever is larger; the bytes wanted are in use. */
  function NextChunk(e: Entry, size: nat, area: nat): Chunk
    requires |e.chunks| > 0
  {
    Chunk(area, 2 * Larger(size, e.chunks[|e.chunks| - 1].size), size)
  }

  /** An entry whose last chunk has been cut. */
  function CutEntry(e: Entry, size: nat): Entry
    requires |e.chunks| > 0
  {
    var n := |e.chunks| - 1;
    e.(chunks := e.chunks[n := e.chunks[n].(offset := e.chunks[n].offset + size)])
  }

  /** The entry after it has served so many bytes; `area` is the next one malloc returns. */
  function Served(e: Entry, size: nat, area: nat): Entry
    requires |e.chunks| > 0
  {
    if Fits(e, size) then CutEntry(e, size) else e.(chunks := e.chunks + [NextChunk(e, size, area)])
  }

  /** The bytes it serves. */
  function Place(e: Entry, size: nat, area: nat): Region
    requires |e.chunks| > 0
  {
    var last := e.chunks[|e.chunks| - 1];
    if Fits(e, size) then Region(last.area, last.offset, size) else Region(area, 0, size)
  }

  lemma UsedServed(e: Entry, size: nat, area: nat)
    requires |e.chunks| > 0
    ensures Used(Served(e, size, area).chunks) == Used(e.chunks) + size
  {
    var was, now := e.chunks, Served(e, size, area).chunks;
    if Fits(e, size) {
      assert now[..|now| - 1] == was[..|was| - 1];
    } else {
      assert now[..|now| - 1] == was;
    }
  }

  /** Serving bytes keeps the bound, whether the entry grows or not. */
  lemma ServedIsThrifty(e: Entry, size: nat, area: nat)
    requires Thrifty(e.chunks)
    ensures Thrifty(Served(e, size, area).chunks)
  {
    UsedServed(e, size, area);
    if Fits(e, size) {
      TotalOfSizes(CutEntry(e, size).chunks, e.chunks);
    } else {
      GrowthIsThrifty(e, size, area);
    }
  }

  /** Growth for bytes that do not fit brings the bound about. */
  lemma GrowthIsThrifty(e: Entry, size: nat, area: nat)
    requires |e.chunks| > 0 && Doubling(e.chunks) && !Fits(e, size)
    ensures Thrifty(e.chunks + [NextChunk(e, size, area)])
  {
    var c := NextChunk(e, size, area);
    var grown := e.chunks + [c];
    assert grown[..|grown| - 1] == e.chunks;
    BeforeLast(e.chunks);
    assert Total(grown) == Total(e.chunks) + c.size;
  }

  lemma {:induction false} TotalOfSizes(a: seq<Chunk>, b: seq<Chunk>)
    requires |a| == |b| && forall i :: 0 <= i < |a| ==> a[i].size == b[i].size
    ensures Total(a) == Total(b)
    decreases |a|
  {
    if |a| > 0 {
      TotalOfSizes(a[..|a| - 1], b[..|b| - 1]);
    }
  }

  // ---------- the bytes handed out ----------

  /** The bytes of all regions in areas of one entry. */
  ghost function Handed(live: seq<Region>, owner: seq<(Key, nat)>, k: Key): nat {
    if |live| == 0 then 0
    else Handed(live[..|live| - 1], owner, k) + (if OwnedBy(live[|live| - 1], owner, k) then live[|live| - 1].len
        else 0)
  }

  ghost predicate OwnedBy(r: Region, owner: seq<(Key, nat)>, k: Key) {
    r.area < |owner| && owner[r.area].0 == k
  }

  /** New areas at the end make no difference. */
  lemma {:induction false} HandedStill(live: seq<Region>, owner: seq<(Key, nat)>, owner2: seq<(Key, nat)>, k: Key)
    requires |owner| <= |owner2| && owner2[..|owner|] == owner && forall i :: 0 <= i < |live| ==> live[i].area < |owner|
    ensures Handed(live, owner2, k) == Handed(live, owner, k)
    decreases |live|
  {
    if |live| > 0 {
      HandedStill(live[..|live| - 1], owner, owner2, k);
      var r := live[|live| - 1];
      assert owner2[r.area] == owner2[..|owner|][r.area];
    }
  }

  lemma {:induction false} HandedNone(live: seq<Region>, owner: seq<(Key, nat)>, k: Key)
    requires forall i :: 0 <= i < |live| ==> !OwnedBy(live[i], owner, k)
    ensures Handed(live, owner, k) == 0
    decreases |live|
  {
    if |live| > 0 {
      HandedNone(live[..|live| - 1], owner, k);
    }
  }

  lemma HandedMore(live: seq<Region>, owner: seq<(Key, nat)>, k: Key, r: Region)
    ensures Handed(live + [r], owner, k) == Handed(live, owner, k) + if OwnedBy(r, owner, k) then r.len else 0
  {
    assert (live + [r])[..|live|] == live;
  }

  // ---------- the memory ----------

  /** The chunk has its area for itself. */
  ghost predicate Placed(entries: map<Key, Entry>, areas: seq<seq<Byte>>, owner: seq<(Key, nat)>, k: Key, i: nat) {
    k in entries && i < |entries[k].chunks| &&
    var c := entries[k].chunks[i];
    c.area < |areas| && c.area < |owner| && owner[c.area] == (k, i) && |areas[c.area]| == c.size
        && c.offset <= c.size
  }

  /** The region lies in the handed-out part of a chunk. */
  ghost predicate Inside(entries: map<Key, Entry>, areas: seq<seq<Byte>>, owner: seq<(Key, nat)>, r: Region) {
    r.area < |owner| && r.area < |areas| &&
    var (k, i) := owner[r.area];
    k in entries && i < |entries[k].chunks| && entries[k].chunks[i].area == r.area
    && r.from + r.len <= entries[k].chunks[i].offset && r.from + r.len <= |areas[r.area]|
  }

  ghost predicate AllPlaced(entries: map<Key, Entry>, areas: seq<seq<Byte>>, owner: seq<(Key, nat)>) {
    && |owner| == |areas|
    && (forall k :: k in entries ==> Thrifty(entries[k].chunks))
    && (forall k, i: nat {:trigger Placed(entries, areas, owner, k, i)} ::
        k in entries && i < |entries[k].chunks| ==> Placed(entries, areas, owner, k, i))
  }

  /** What is in use is what has been handed out: no byte is lost between two regions. */
  ghost predicate Counted(entries: map<Key, Entry>, owner: seq<(Key, nat)>, live: seq<Region>) {
    forall k :: k in entries ==> Used(entries[k].chunks) == Handed(live, owner, k)
  }

  ghost predicate AllInside(entries: map<Key, Entry>, areas: seq<seq<Byte>>, owner: seq<(Key, nat)>,
      live: seq<Region>)
  {
    && (forall i :: 0 <= i < |live| ==> Inside(entries, areas, owner, live[i]))
    && (forall i, j :: 0 <= i < j < |live| ==> Apart(live[i], live[j]))
  }

  /** One more area at the end, for one more chunk at the end of an entry. */
  lemma PlacedMore(entries: map<Key, Entry>, areas: seq<seq<Byte>>, owner: seq<(Key, nat)>, t: Key, mode: Mode,
      chunks: seq<Chunk>, c: Chunk, area: seq<Byte>)
    requires AllPlaced(entries, areas, owner)
    requires if t in entries then chunks == entries[t].chunks else chunks == []
    requires c.area == |areas| && c.size == |area| && c.offset <= c.size && Thrifty(chunks + [c])
    ensures AllPlaced(entries[t := Entry(mode, chunks + [c])], areas + [area], owner + [(t, |chunks|)])
  {
    var e2, a2, o2 := entries[t := Entry(mode, chunks + [c])], areas + [area], owner + [(t, |chunks|)];
    forall k, i: nat | k in e2 && i < |e2[k].chunks| ensures Placed(e2, a2, o2, k, i) {
      if k != t || i < |chunks| {
        assert Placed(entries, areas, owner, k, i);
      }
    }
  }

  /** Another mode, or more bytes of the last chunk. */
  lemma PlacedSame(entries: map<Key, Entry>, areas: seq<seq<Byte>>, owner: seq<(Key, nat)>, t: Key, e: Entry,
      areas2: seq<seq<Byte>>)
    requires AllPlaced(entries, areas, owner) && t in entries && |e.chunks| == |entries[t].chunks| && Thrifty(e.chunks)
    requires forall i :: 0 <= i < |e.chunks| ==>
      e.chunks[i].area == entries[t].chunks[i].area && e.chunks[i].size == entries[t].chunks[i].size
      && (e.chunks[i].offset == entries[t].chunks[i].offset || e.chunks[i].offset <= e.chunks[i].size)
    requires |areas2| == |areas| && forall a :: 0 <= a < |areas| ==> |areas2[a]| == |areas[a]|
    ensures AllPlaced(entries[t := e], areas2, owner)
  {
    var e2 := entries[t := e];
    forall k, i: nat | k in e2 && i < |e2[k].chunks| ensures Placed(e2, areas2, owner, k, i) {
      assert Placed(entries, areas, owner, k, i);
    }
  }

  /** The entry that served a region and the regions grow by the same number of bytes. */
  lemma CountedMore(entries: map<Key, Entry>, areas: seq<seq<Byte>>, owner: seq<(Key, nat)>, live: seq<Region>,
      t: Key, e: Entry, owner2: seq<(Key, nat)>, r: Region)
    requires Counted(entries, owner, live) && AllInside(entries, areas, owner, live) && t in entries
    requires |owner| <= |owner2| && owner2[..|owner|] == owner && OwnedBy(r, owner2, t)
    requires Used(e.chunks) == Used(entries[t].chunks) + r.len
    ensures Counted(entries[t := e], owner2, live + [r])
  {
    var e2 := entries[t := e];
    forall k | k in e2 ensures Used(e2[k].chunks) == Handed(live + [r], owner2, k) {
      AreasOwned(entries, areas, owner, live);
      HandedStill(live, owner, owner2, k);
      HandedMore(live, owner2, k, r);
    }
  }

  lemma AreasOwned(entries: map<Key, Entry>, areas: seq<seq<Byte>>, owner: seq<(Key, nat)>, live: seq<Region>)
    requires AllInside(entries, areas, owner, live)
    ensures forall i :: 0 <= i < |live| ==> live[i].area < |owner| && owner[live[i].area].0 in entries
  {
    forall i | 0 <= i < |live| ensures live[i].area < |owner| && owner[live[i].area].0 in entries {
      assert Inside(entries, areas, owner, live[i]);
    }
  }

  /** A new entry has handed out nothing. */
  lemma CountedNew(entries: map<Key, Entry>, areas: seq<seq<Byte>>, owner: seq<(Key, nat)>, live: seq<Region>,
      t: Key, e: Entry, owner2: seq<(Key, nat)>)
    requires Counted(entries, owner, live) && AllInside(entries, areas, owner, live) && t !in entries
    requires |owner| <= |owner2| && owner2[..|owner|] == owner && Used(e.chunks) == 0
    ensures Counted(entries[t := e], owner2, live)
  {
    var e2 := entries[t := e];
    AreasOwned(entries, areas, owner, live);
    HandedNone(live, owner, t);
    forall k | k in e2 ensures Used(e2[k].chunks) == Handed(live, owner2, k) {
      HandedStill(live, owner, owner2, k);
    }
  }

  /** Regions stay inside when chunks only grow. */
  lemma InsideStill(entries: map<Key, Entry>, areas: seq<seq<Byte>>, owner: seq<(Key, nat)>, e2: map<Key, Entry>,
      a2: seq<seq<Byte>>, o2: seq<(Key, nat)>, r: Region)
    requires Inside(entries, areas, owner, r) && |owner| <= |o2| && |areas| <= |a2| && o2[..|owner|] == owner
    requires forall a :: 0 <= a < |areas| ==> |a2[a]| == |areas[a]|
    requires forall k :: k in entries ==> k in e2 && |entries[k].chunks| <= |e2[k].chunks|
    requires forall k, i :: k in entries && 0 <= i < |entries[k].chunks| ==>
      e2[k].chunks[i].area == entries[k].chunks[i].area && entries[k].chunks[i].offset <= e2[k].chunks[i].offset
    ensures Inside(e2, a2, o2, r)
  {
    assert o2[r.area] == owner[r.area];
  }

  /** Only bytes of the region differ from before. */
  ghost predicate OnlyChanged(was: seq<seq<Byte>>, now: seq<seq<Byte>>, r: Region) {
    |was| <= |now| && forall a :: 0 <= a < |was| ==> |now[a]| == |was[a]| && SameOutside(was[a], now[a], a, r)
  }

  ghost predicate SameOutside(was: seq<Byte>, now: seq<Byte>, a: nat, r: Region) {
    |was| == |now| && forall p :: 0 <= p < |was| && !(a == r.area && r.from <= p < r.from + r.len) ==> now[p] == was[p]
  }

  lemma Untouched(was: seq<seq<Byte>>, now: seq<seq<Byte>>, r: Region, s: Region)
    requires OnlyChanged(was, now, r) && Apart(s, r) && s.area < |was| && s.from + s.len <= |was[s.area]|
    ensures s.from + s.len <= |now[s.area]|
      && now[s.area][s.from..s.from + s.len] == was[s.area][s.from..s.from + s.len]
  {
    assert SameOutside(was[s.area], now[s.area], s.area, r);
  }

  lemma AllUntouched(was: seq<seq<Byte>>, now: seq<seq<Byte>>, r: Region, live: seq<Region>)
    requires OnlyChanged(was, now, r)
    requires forall s :: s in live ==> s.area < |was| && s.from + s.len <= |was[s.area]|
    requires forall s :: s in live ==> Apart(s, r)
    ensures forall s :: s in live ==>
      s.from + s.len <= |now[s.area]| && now[s.area][s.from..s.from + s.len] == was[s.area][s.from..s.from + s.len]
  {
    forall s | s in live ensures s.from + s.len <= |now[s.area]|
        && now[s.area][s.from..s.from + s.len] == was[s.area][s.from..s.from + s.len] {
      Untouched(was, now, r, s);
    }
  }

  lemma LastApart(entries: map<Key, Entry>, areas: seq<seq<Byte>>, owner: seq<(Key, nat)>, live: seq<Region>, r: Region)
    requires AllInside(entries, areas, owner, live + [r])
    ensures forall s :: s in live ==> Apart(s, r)
  {
    var all := live + [r];
    forall s | s in live ensures Apart(s, r) {
      var i :| 0 <= i < |live| && live[i] == s;
      assert all[i] == s && all[|live|] == r;
    }
  }

  /** A new region behind all others of its area keeps the regions apart. */
  lemma OneMoreInside(entries: map<Key, Entry>, areas: seq<seq<Byte>>, owner: seq<(Key, nat)>, live: seq<Region>,
      e2: map<Key, Entry>, a2: seq<seq<Byte>>, o2: seq<(Key, nat)>, r: Region)
    requires AllInside(entries, areas, owner, live) && |owner| <= |o2| && |areas| <= |a2| && o2[..|owner|] == owner
    requires forall a :: 0 <= a < |areas| ==> |a2[a]| == |areas[a]|
    requires forall k :: k in entries ==> k in e2 && |entries[k].chunks| <= |e2[k].chunks|
    requires forall k, i :: k in entries && 0 <= i < |entries[k].chunks| ==>
      e2[k].chunks[i].area == entries[k].chunks[i].area && entries[k].chunks[i].offset <= e2[k].chunks[i].offset
    requires Inside(e2, a2, o2, r)
    requires r.area < |owner| ==>
      var (k, i) := owner[r.area]; k in entries && i < |entries[k].chunks| && entries[k].chunks[i].offset == r.from
    ensures AllInside(e2, a2, o2, live + [r])
  {
    forall i | 0 <= i < |live| ensures Inside(e2, a2, o2, live[i]) && Apart(live[i], r) {
      assert Inside(entries, areas, owner, live[i]);
      InsideStill(entries, areas, owner, e2, a2, o2, live[i]);
    }
  }

  lemma AllInsideStill(entries: map<Key, Entry>, areas: seq<seq<Byte>>, owner: seq<(Key, nat)>, live: seq<Region>,
      t: Key, e: Entry, area: seq<Byte>, o: (Key, nat))
    requires AllInside(entries, areas, owner, live) && t !in entries
    ensures AllInside(entries[t := e], areas + [area], owner + [o], live)
  {
    forall i | 0 <= i < |live| ensures Inside(entries[t := e], areas + [area], owner + [o], live[i]) {
      InsideStill(entries, areas, owner, entries[t := e], areas + [area], owner + [o], live[i]);
    }
  }

  lemma OneChunk(c: Chunk)
    requires c.offset == 0
    ensures Thrifty([c]) && Used([c]) == 0 && [] + [c] == [c]
  {
    assert [c][..0] == [];
  }

  /** A new entry with one chunk, none of which is in use. */
  lemma Enrolled(entries: map<Key, Entry>, areas: seq<seq<Byte>>, owner: seq<(Key, nat)>, live: seq<Region>, t: Key,
      c: Chunk, area: seq<Byte>)
    requires AllPlaced(entries, areas, owner) && AllInside(entries, areas, owner, live)
      && Counted(entries, owner, live)
    requires t !in entries && c.area == |areas| && c.size == |area| && c.offset == 0
    ensures AllPlaced(entries[t := Entry(Own, [c])], areas + [area], owner + [(t, 0)])
    ensures AllInside(entries[t := Entry(Own, [c])], areas + [area], owner + [(t, 0)], live)
    ensures Counted(entries[t := Entry(Own, [c])], owner + [(t, 0)], live)
  {
    OneChunk(c);
    PlacedMore(entries, areas, owner, t, Own, [], c, area);
    CountedNew(entries, areas, owner, live, t, Entry(Own, [c]), owner + [(t, 0)]);
    AllInsideStill(entries, areas, owner, live, t, Entry(Own, [c]), area, (t, 0));
  }

  lemma NewIsInside(entries: map<Key, Entry>, areas: seq<seq<Byte>>, owner: seq<(Key, nat)>, live: seq<Region>,
      t: Key, c: Chunk, area: seq<Byte>, size: nat)
    requires AllInside(entries, areas, owner, live) && |areas| == |owner| && t in entries
    requires c.area == |areas| && c.size == |area| && c.offset == size <= c.size
    ensures AllInside(entries[t := Entry(entries[t].mode, entries[t].chunks + [c])], areas + [area],
      owner + [(t, |entries[t].chunks|)],
      live + [Region(|areas|, 0, size)])
  {
    var chunks := entries[t].chunks;
    var e2, a2, o2 := entries[t := Entry(entries[t].mode, chunks + [c])], areas + [area], owner + [(t, |chunks|)];
    assert e2[t].chunks[|chunks|] == c;
    OneMoreInside(entries, areas, owner, live, e2, a2, o2, Region(|areas|, 0, size));
  }

  /** A region cut from the last chunk of an entry. */
  lemma LastIsInside(entries: map<Key, Entry>, areas: seq<seq<Byte>>, owner: seq<(Key, nat)>,
      live: seq<Region>, t: Key, areas2: seq<seq<Byte>>, size: nat, r: Region)
    requires AllInside(entries, areas, owner, live) && t in entries && |entries[t].chunks| > 0
    requires Placed(entries, areas, owner, t, |entries[t].chunks| - 1)
    requires var last := entries[t].chunks[|entries[t].chunks| - 1];
      last.offset + size <= last.size && r == Region(last.area, last.offset, size)
    requires |areas2| == |areas| && forall a :: 0 <= a < |areas| ==> |areas2[a]| == |areas[a]|
    ensures AllInside(entries[t := CutEntry(entries[t], size)], areas2, owner, live + [r])
  {
    OneMoreInside(entries, areas, owner, live, entries[t := CutEntry(entries[t], size)], areas2, owner, r);
  }

  class Memory {
    var current: nat
    /** The allocators an allocator falls back on in the other modes. */
    var custom: map<nat, map<Mode, nat>>
    var entries: map<Key, Entry>
    var areas: seq<seq<Byte>>
    /** The entry and the place in it that each area belongs to. */
    ghost var owner: seq<(Key, nat)>
    /** Everything allocated so far; nothing is freed before the allocator. */
    ghost var live: seq<Region>

    ghost predicate Valid()
      reads this
    {
      AllPlaced(entries, areas, owner) && AllInside(entries, areas, owner, live) && Counted(entries, owner, live)
    }

    ghost predicate Allocated(r: Region)
      reads this
    {
      r.area < |areas| && r.from + r.len <= |areas[r.area]|
    }

    function Bytes(r: Region): seq<Byte>
      requires Allocated(r)
      reads this
    {
      areas[r.area][r.from..r.from + r.len]
    }

    constructor ()
      ensures Valid() && entries == map[] && live == [] && custom == map[]
    {
      current, custom, entries, areas := 0, map[], map[], [];
      owner, live := [], [];
    }

    /** Uninitialised memory. */
    method Malloc(size: nat) returns (a: seq<Byte>)
      ensures |a| == size
    {
      assert |seq(size, i => 0 as Byte)| == size;
      a :| |a| == size;
    }

    /** `memory_allocator_set_current` */
    method SetCurrent(allocator: nat)
      requires Valid()
      modifies this`current
      ensures Valid() && current == allocator
    {
      current := allocator;
    }

    /** `memory_allocator_set_custom`; there is no slot for the allocator itself. */
    method SetCustom(allocator: nat, mode: Mode, other: nat)
      requires Valid()
      modifies this`custom
      ensures Valid() && allocator in custom && custom.Keys == old(custom).Keys + {allocator}
      ensures forall a :: a in old(custom) && a != allocator ==> custom[a] == old(custom)[a]
      ensures mode != Own ==> mode in custom[allocator] && custom[allocator][mode] == other
      ensures forall m :: m != mode || mode == Own ==>
        (m in custom[allocator] <==> allocator in old(custom) && m in old(custom)[allocator]) &&
        (m in custom[allocator] ==> custom[allocator][m] == old(custom)[allocator][m])
    {
      var slots: map<Mode, nat> := if allocator in custom then custom[allocator] else map[];
      if mode == Stylesheet {
        slots := slots[Stylesheet := other];
      }
      if mode == Global {
        slots := slots[Global := other];
      }
      custom := custom[allocator := slots];
    }

    /**
     `memory_allocator_add_entry`.  A second entry of a thread stands behind the first one, which
     every search finds, and serves nothing.
     */
    method AddEntry(allocator: nat, thread: nat, size: nat)
      requires Valid()
      modifies this`entries, this`areas, this`owner, this`live
      ensures Valid() && live == old(live)
      ensures (allocator, thread) in old(entries) ==> entries == old(entries) && areas == old(areas)
      ensures (allocator, thread) !in old(entries) ==>
        && entries == old(entries)[(allocator, thread) := Entry(Own, [Chunk(|old(areas)|, size, 0)])]
        && |areas| == |old(areas)| + 1 && areas[..|old(areas)|] == old(areas)
    {
      var k := (allocator, thread);
      if k in entries {
        return;
      }
      var area := Malloc(size);
      var chunk := Chunk(|areas|, size, 0);
      Enrolled(entries, areas, owner, live, k, chunk, area);
      Replace(entries[k := Entry(Own, [chunk])], areas + [area], owner + [(k, 0)], live);
    }

    /** `memory_allocator_activate_mode` */
    method ActivateMode(self: nat, mode: Mode) returns (rc: bool)
      requires Valid()
      modifies this`entries
      ensures Valid()
      ensures rc <==> (current, self) in old(entries) && old(entries)[(current, self)].mode != mode
      ensures entries == if rc then old(entries)[(current, self) := Entry(mode,
        old(entries)[(current, self)].chunks)] else old(entries)
    {
      var k := (current, self);
      if k !in entries || entries[k].mode == mode {
        return false;
      }
      var e := entries[k].(mode := mode);
      PlacedSame(entries, areas, owner, k, e, areas);
      forall i | 0 <= i < |live| ensures Inside(entries[k := e], areas, owner, live[i]) {
        InsideStill(entries, areas, owner, entries[k := e], areas, owner, live[i]);
      }
      entries := entries[k := e];
      return true;
    }

    /** The entry that serves a thread: its own, or that of the allocator its mode selects. */
    ghost function Selected(self: nat): Key
      reads this
    {
      if (current, self) !in entries || current !in custom || entries[(current, self)].mode == Own then (current, self)
      else if entries[(current, self)].mode in custom[current] then
          (custom[current][entries[(current, self)].mode], self)
      else (current, self)
    }

    /** The slot the mode of the thread selects has been set. */
    predicate IsSet(self: nat)
      reads this
    {
      (current, self) in entries && current in custom && entries[(current, self)].mode != Own ==>
        entries[(current, self)].mode in custom[current]
    }

    /** `memory_allocator_new`; the custom allocators of a mode are set before the mode is used. */
    method New(self: nat, size: nat) returns (r: Option<Region>)
      requires Valid() && IsSet(self)
      modifies this`entries, this`areas, this`owner, this`live
      ensures Valid()
      ensures r.None? <==> (current, self) !in old(entries) || old(Selected(self)) !in old(entries)
      ensures r.None? ==> entries == old(entries) && areas == old(areas) && owner == old(owner) && live == old(live)
      ensures r.Some? ==> r.value == old(Place(entries[Selected(self)], size, |areas|))
      ensures r.Some? ==>
        entries == old(entries)[old(Selected(self)) := old(Served(entries[Selected(self)], size, |areas|))]
      ensures r.Some? ==> |areas| == |old(areas)| + if old(Fits(entries[Selected(self)], size)) then 0 else 1
      ensures r.Some? ==> live == old(live) + [r.value] && Allocated(r.value) && Bytes(r.value) == Zeros(size)
      ensures r.Some? ==> OwnedBy(r.value, owner, old(Selected(self)))
      ensures forall s :: s in old(live) ==> old(Allocated(s)) && Allocated(s) && Bytes(s) == old(Bytes(s))
    {
      LiveAllocated();
      var t := Choose(self);
      if t == None {
        return None;
      }
      ghost var first, before := live, areas;
      var region := Cut(t.value, size);
      LastApart(entries, areas, owner, first, region);
      AllUntouched(before, areas, region, first);
      return Some(region);
    }

    lemma LiveAllocated()
      requires Valid()
      ensures forall s :: s in live ==> Allocated(s)
    {
      forall s | s in live ensures Allocated(s) {
        assert Inside(entries, areas, owner, s);
      }
    }

    /** The entry to allocate from, if the thread has one there. */
    method Choose(self: nat) returns (t: Option<Key>)
      requires IsSet(self)
      ensures t.None? <==> (current, self) !in entries || Selected(self) !in entries
      ensures t.Some? ==> t.value == Selected(self)
    {
      var k := (current, self);
      if k !in entries {
        return None;
      }
      if current in custom && entries[k].mode != Own {
        k := (custom[current][entries[k].mode], self);
        if k !in entries {
          return None;
        }
      }
      return Some(k);
    }

    /** The part of `memory_allocator_new` behind the choice of the entry. */
    method Cut(t: Key, size: nat) returns (r: Region)
      requires Valid() && t in entries
      modifies this`entries, this`areas, this`owner, this`live
      ensures Valid()
      ensures r == old(Place(entries[t], size, |areas|))
      ensures entries == old(entries)[t := old(Served(entries[t], size, |areas|))]
      ensures |areas| == |old(areas)| + if old(Fits(entries[t], size)) then 0 else 1
      ensures OnlyChanged(old(areas), areas, r)
      ensures live == old(live) + [r] && Allocated(r) && Bytes(r) == Zeros(size)
      ensures OwnedBy(r, owner, t)
    {
      var e := entries[t];
      assert Thrifty(e.chunks);
      var data := e.chunks[|e.chunks| - 1];
      if data.offset + size > data.size {
        r := CutNew(t, size);
      } else {
        r := CutLast(t, size);
      }
    }

    /** The bytes fit behind those of the last chunk. */
    method CutLast(t: Key, size: nat) returns (r: Region)
      requires Valid() && t in entries && |entries[t].chunks| > 0 && Fits(entries[t], size)
      modifies this`entries, this`areas, this`live
      ensures Valid()
      ensures r == old(Place(entries[t], size, |areas|))
      ensures entries == old(entries)[t := CutEntry(old(entries)[t], size)]
      ensures |areas| == |old(areas)| && OnlyChanged(old(areas), areas, r)
      ensures live == old(live) + [r] && Allocated(r) && Bytes(r) == Zeros(size)
      ensures OwnedBy(r, owner, t)
    {
      var chunks := entries[t].chunks;
      var n := |chunks| - 1;
      var data := chunks[n];
      assert Placed(entries, areas, owner, t, n);
      r := Region(data.area, data.offset, size);
      var areas2 := areas[data.area := Cleared(areas[data.area], data.offset, size)];
      ServedIsThrifty(entries[t], size, |areas|);
      PlacedSame(entries, areas, owner, t, CutEntry(entries[t], size), areas2);
      LastIsInside(entries, areas, owner, live, t, areas2, size, r);
      UsedServed(entries[t], size, |areas|);
      CountedMore(entries, areas, owner, live, t, CutEntry(entries[t], size), owner, r);
      entries := entries[t := CutEntry(entries[t], size)];
      areas := areas2;
      live := live + [r];
    }

    /** A new chunk of twice the size wanted or of the chunk before, whichever is larger. */
    method CutNew(t: Key, size: nat) returns (r: Region)
      requires Valid() && t in entries && |entries[t].chunks| > 0 && !Fits(entries[t], size)
      modifies this`entries, this`areas, this`owner, this`live
      ensures Valid()
      ensures r == old(Place(entries[t], size, |areas|))
      ensures entries == old(entries)[t := old(Served(entries[t], size, |areas|))]
      ensures |areas| == |old(areas)| + 1 && OnlyChanged(old(areas), areas, r)
      ensures live == old(live) + [r] && Allocated(r) && Bytes(r) == Zeros(size)
      ensures OwnedBy(r, owner, t)
    {
      var chunks := entries[t].chunks;
      var n := |chunks|;
      var data := chunks[n - 1];
      var newSize := 2 * (if size > data.size then size else data.size);
      var area := Malloc(newSize);
      var c := Chunk(|areas|, newSize, size);
      r := Region(|areas|, 0, size);
      area := Cleared(area, 0, size);
      var e := Entry(entries[t].mode, chunks + [c]);
      ServedIsThrifty(entries[t], size, |areas|);
      PlacedMore(entries, areas, owner, t, entries[t].mode, chunks, c, area);
      NewIsInside(entries, areas, owner, live, t, c, area, size);
      UsedServed(entries[t], size, |areas|);
      CountedMore(entries, areas, owner, live, t, e, owner + [(t, n)], r);
      Replace(entries[t := e], areas + [area], owner + [(t, n)], live + [r]);
    }

    method Replace(e2: map<Key, Entry>, a2: seq<seq<Byte>>, ghost o2: seq<(Key, nat)>, ghost l2: seq<Region>)
      requires AllPlaced(e2, a2, o2) && AllInside(e2, a2, o2, l2) && Counted(e2, o2, l2)
      modifies this`entries, this`areas, this`owner, this`live
      ensures Valid() && entries == e2 && areas == a2 && owner == o2 && live == l2
    {
      entries, areas, owner, live := e2, a2, o2, l2;
    }

    // ---------- what holds in every state ----------

    /** The bytes of all regions returned from one entry. */
    ghost function Returned(k: Key): nat
      reads this
    {
      Handed(live, owner, k)
    }

    /** A region comes from an entry exactly if it lies in a chunk of it. */
    lemma OwnedIff(r: Region, k: Key)
      requires Valid() && r in live && k in entries
      ensures OwnedBy(r, owner, k) <==> exists i :: 0 <= i < |entries[k].chunks| && entries[k].chunks[i].area == r.area
    {
      assert Inside(entries, areas, owner, r);
      if i :| 0 <= i < |entries[k].chunks| && entries[k].chunks[i].area == r.area {
        assert Placed(entries, areas, owner, k, i);
      }
    }

    ghost predicate IsBounded(k: Key)
      requires k in entries
      reads this
    {
      var chunks := entries[k].chunks;
      |chunks| > 1 ==> Total(chunks) < 4 * Returned(k) && Power2(|chunks| - 1) * chunks[0].size < 4 * Returned(k)
    }

    lemma SpaceBound(k: Key)
      requires Valid() && k in entries
      ensures IsBounded(k) && Used(entries[k].chunks) == Returned(k)
    {
      assert Thrifty(entries[k].chunks);
      if |entries[k].chunks| > 1 {
        FewChunks(entries[k].chunks);
      }
    }

    ghost predicate AllZero()
      reads this
    {
      forall i :: 0 <= i < |live| ==> Allocated(live[i]) && Bytes(live[i]) == Zeros(live[i].len)
    }

    method Answer(call: Call) returns (a: Option<Region>)
      requires Valid() && AllZero() && (call.Allocate? ==> IsSet(call.self))
      modifies this
      ensures Valid() && AllZero()
      ensures a.Some? ==> call.Allocate? && a.value.len == call.size
      ensures live == match a case None => old(live) case Some(r) => old(live) + [r]
    {
      a := None;
      match call
      case Use(allocator) => SetCurrent(allocator);
      case Redirect(allocator, mode, other) => SetCustom(allocator, mode, other);
      case Enrol(allocator, thread, size) => AddEntry(allocator, thread, size);
      case Switch(self, mode) => var rc := ActivateMode(self, mode);
      case Allocate(self, size) => a := New(self, size);
    }
  }

  // ---------- runs ----------

  /** A call of the allocator, each by any thread. */
  datatype Call =
    | Use(allocator: nat)
    | Redirect(allocator: nat, mode: Mode, other: nat)
    | Enrol(allocator: nat, thread: nat, size: nat)
    | Switch(self: nat, mode: Mode)
    | Allocate(self: nat, size: nat)

  /** What the allocations returned. */
  function Given(answers: seq<Option<Region>>): seq<Region> {
    if |answers| == 0 then []
    else
      match answers[|answers| - 1]
      case None => Given(answers[..|answers| - 1])
      case Some(r) => Given(answers[..|answers| - 1]) + [r]
  }

  /** Only allocations return regions, of the size wanted. */
  ghost predicate Answers(calls: seq<Call>, answers: seq<Option<Region>>) {
    |answers| <= |calls| && forall i :: 0 <= i < |answers| && answers[i].Some? ==>
      calls[i].Allocate? && answers[i].value.len == calls[i].size
  }

  lemma GivenMore(answers: seq<Option<Region>>, a: Option<Region>)
    ensures Given(answers + [a]) == match a case None => Given(answers) case Some(r) => Given(answers) + [r]
  {
    assert (answers + [a])[..|answers|] == answers;
  }

  /**
   Any calls of any threads.  The run stops at an allocation in a mode whose slot has not been set.
   Whatever the calls, every entry that has grown has reserved less than four times the bytes of the
   regions it has returned, in logarithmically many chunks.
   */
  method Run(calls: seq<Call>) returns (memory: Memory, answers: seq<Option<Region>>)
    ensures memory.Valid() && fresh(memory) && Answers(calls, answers) && memory.live == Given(answers)
    ensures |answers| < |calls| ==> calls[|answers|].Allocate? && !memory.IsSet(calls[|answers|].self)
    ensures forall i :: 0 <= i < |memory.live| ==>
      memory.Allocated(memory.live[i]) && memory.Bytes(memory.live[i]) == Zeros(memory.live[i].len)
    ensures forall i, j :: 0 <= i < j < |memory.live| ==> Apart(memory.live[i], memory.live[j])
    ensures forall k :: k in memory.entries ==> memory.IsBounded(k)
  {
    memory := new Memory();
    answers := [];
    var i := 0;
    while i < |calls|
      invariant i == |answers| <= |calls| && fresh(memory) && memory.Valid()
      invariant Answers(calls, answers) && memory.live == Given(answers) && memory.AllZero()
    {
      if calls[i].Allocate? && !memory.IsSet(calls[i].self) {
        break;
      }
      var a := memory.Answer(calls[i]);
      GivenMore(answers, a);
      answers := answers + [a];
      i := i + 1;
    }
    forall k | k in memory.entries ensures memory.IsBounded(k) {
      memory.SpaceBound(k);
    }
  }

  /** `memset` on a part of an area. */
  function Cleared(a: seq<Byte>, from: nat, n: nat): (b: seq<Byte>)
    requires from + n <= |a|
    ensures |b| == |a| && b[from..from + n] == Zeros(n)
    ensures forall p :: 0 <= p < |a| && !(from <= p < from + n) ==> b[p] == a[p]
  {
    a[..from] + Zeros(n) + a[from + n..]
  }

  function Zeros(n: nat): (z: seq<Byte>)
    ensures |z| == n && forall i :: 0 <= i < n ==> z[i] == 0
  {
    seq(n, i => 0)
  }
}
