/** Log rotation: renaming and unlinking of archives, over whole runs. */
module Rotater {
  import opened Wrappers

  /** The base file, and its archives by index. */
  datatype File = Base | Archive(index: nat)

  /** Files with their contents. */
  type Disk = map<File, nat>

  function Unlink(d: Disk, f: File): Option<Disk> {
    if f in d then Some(d - {f}) else None
  }

  /** `rename`: an existing target is replaced. */
  function Rename(d: Disk, from: File, to: File): Option<Disk> {
    if from in d then Some((d - {from})[to := d[from]]) else None
  }

  // ---------- the archives on disk ----------

  /** The archives, by index. */
  ghost predicate IsListing(files: seq<nat>, d: Disk) {
    && (forall i, j :: 0 <= i < j < |files| ==> files[i] < files[j])
    && (forall n :: n in files <==> Archive(n) in d)
  }

  /** `zc_arraylist_sortadd` for one archive found. */
  method SortAdd(files: seq<nat>, n: nat) returns (r: seq<nat>)
    requires (forall i, j :: 0 <= i < j < |files| ==> files[i] < files[j]) && n !in files
    ensures forall i, j :: 0 <= i < j < |r| ==> r[i] < r[j]
    ensures forall m :: m in r <==> m in files || m == n
  {
    var i := 0;
    while i < |files| && files[i] < n
      invariant i <= |files| && forall j :: 0 <= j < i ==> files[j] < n
    {
      i := i + 1;
    }
    r := files[..i] + [n] + files[i..];
    forall m ensures m in r <==> m in files || m == n {
      assert files == files[..i] + files[i..];
    }
  }

  /** `zlog_rotater_add_archive_files`, from the indexes the search found in any order. */
  method List(found: seq<nat>, ghost d: Disk) returns (files: seq<nat>)
    requires Finds(found, d)
    ensures IsListing(files, d)
  {
    files := [];
    var i := 0;
    while i < |found|
      invariant i <= |found| && forall j, k :: 0 <= j < k < |files| ==> files[j] < files[k]
      invariant forall n :: n in files <==> n in found[..i]
    {
      assert found[i] !in found[..i];
      files := SortAdd(files, found[i]);
      assert found[..i + 1] == found[..i] + [found[i]];
      i := i + 1;
    }
    assert found[..i] == found;
  }

  // ---------- rolling ----------

  /** What happens to the archive at place i of the listing. */
  function RollOne(d: Disk, files: seq<nat>, max: int, i: nat): Option<Disk>
    requires i < |files|
  {
    if max > 0 && i >= max - 1 then Unlink(d, Archive(files[i]))
    else Rename(d, Archive(files[i]), Archive(i + 1))
  }

  /** The archives below place n, from the last to the first. */
  function RollDown(d: Disk, files: seq<nat>, max: int, n: nat): Option<Disk>
    requires n <= |files|
    decreases n
  {
    if n == 0 then Some(d)
    else
      match RollOne(d, files, max, n - 1)
      case None => None
      case Some(e) => RollDown(e, files, max, n - 1)
  }

  function Roll(d: Disk, files: seq<nat>, max: int): Option<Disk> {
    match RollDown(d, files, max, |files|)
    case None => None
    case Some(e) => Rename(e, Base, Archive(0))
  }

  /** No rename of the roll has a target that exists. */
  predicate RollSpares(d: Disk, files: seq<nat>, max: int, n: nat)
    requires n <= |files|
    decreases n
  {
    if n == 0 then Archive(0) !in d
    else
      ((max > 0 && n - 1 >= max - 1) || Archive(n) !in d) && RollOne(d, files, max, n - 1).Some?
      && RollSpares(RollOne(d, files, max, n - 1).value, files, max, n - 1)
  }

  // ---------- sequences ----------

  /** All but the last `max` archives go. */
  function Trim(d: Disk, files: seq<nat>, max: int, i: nat): Option<Disk>
    requires i <= |files|
    decreases |files| - i
  {
    if i == |files| then Some(d)
    else if max > 0 && i < |files| - max then
      match Unlink(d, Archive(files[i]))
      case None => None
      case Some(e) => Trim(e, files, max, i + 1)
    else Trim(d, files, max, i + 1)
  }

  function NextIndex(files: seq<nat>): nat {
    if |files| > 0 then (if |files| - 1 > files[|files| - 1] then |files| - 1 else files[|files| - 1]) + 1 else 0
  }

  function Sequence(d: Disk, files: seq<nat>, max: int): Option<Disk> {
    match Trim(d, files, max, 0)
    case None => None
    case Some(e) => Rename(e, Base, Archive(NextIndex(files)))
  }

  // ---------- the code ----------

  class Rotater {
    var disk: Disk
    const maxCount: int

    constructor (max: int)
      ensures disk == map[] && maxCount == max
    {
      disk := map[];
      maxCount := max;
    }

    /** The file that is logged to is opened anew after each rotation. */
    method Write(content: nat)
      modifies this
      ensures disk == old(disk)[Base := content]
    {
      disk := disk[Base := content];
    }

    method TryUnlink(f: File) returns (ok: bool)
      modifies this
      ensures ok <==> Unlink(old(disk), f).Some?
      ensures disk == if ok then Unlink(old(disk), f).value else old(disk)
    {
      ok := f in disk;
      if ok {
        disk := disk - {f};
      }
    }

    method TryRename(from: File, to: File) returns (ok: bool)
      modifies this
      ensures ok <==> Rename(old(disk), from, to).Some?
      ensures disk == if ok then Rename(old(disk), from, to).value else old(disk)
    {
      ok := from in disk;
      if ok {
        disk := (disk - {from})[to := disk[from]];
      }
    }

    /** `zlog_rotater_roll_files` */
    method RollFiles(files: seq<nat>) returns (ok: bool)
      modifies this
      ensures ok <==> Roll(old(disk), files, maxCount).Some?
      ensures ok ==> disk == Roll(old(disk), files, maxCount).value
    {
      var i: int := |files| - 1;
      while i > -1
        invariant -1 <= i < |files| && RollDown(disk, files, maxCount, i + 1) ==
          RollDown(old(disk), files, maxCount, |files|)
      {
        if maxCount > 0 && i >= maxCount - 1 {
          ok := TryUnlink(Archive(files[i]));
        } else {
          ok := TryRename(Archive(files[i]), Archive(i + 1));
        }
        if !ok {
          return;
        }
        i := i - 1;
      }
      ok := TryRename(Base, Archive(0));
    }

    /** `zlog_rotater_seq_files` */
    method SequenceFiles(files: seq<nat>) returns (ok: bool)
      modifies this
      ensures ok <==> Sequence(old(disk), files, maxCount).Some?
      ensures ok ==> disk == Sequence(old(disk), files, maxCount).value
    {
      var i := 0;
      while i < |files|
        invariant i <= |files| && Trim(disk, files, maxCount, i) == Trim(old(disk), files, maxCount, 0)
      {
        if maxCount > 0 && i < |files| - maxCount {
          ok := TryUnlink(Archive(files[i]));
          if !ok {
            return;
          }
        }
        i := i + 1;
      }
      var j := 0;
      if |files| > 0 {
        var last := files[|files| - 1];
        j := (if |files| - 1 > last then |files| - 1 else last) + 1;
      }
      ok := TryRename(Base, Archive(j));
    }
  }

  // ---------- rolling over a run ----------

  /** The archives are those from `from` on, archive j with the content h[j]. */
  ghost predicate Window(d: Disk, from: nat, h: seq<nat>) {
    forall j: nat {:trigger Archive(j)} :: (Archive(j) in d <==> from <= j < |h|) && (from <= j < |h| ==>
        d[Archive(j)] == h[j])
  }

  lemma {:induction false} Grows(files: seq<nat>, from: nat, i: nat)
    requires (forall i, j :: 0 <= i < j < |files| ==> files[i] < files[j]) && i < |files| && forall n ::
      n in files ==> from <= n
    ensures files[i] >= from + i && files[i] in files
    decreases i
  {
    assert files[i] in files;
    if i > 0 {
      Grows(files, from, i - 1);
    }
  }

  /** The listing of such archives has no gaps. */
  lemma {:induction false} NoGaps(d: Disk, from: nat, h: seq<nat>, files: seq<nat>, i: nat)
    requires Window(d, from, h) && from <= |h| && IsListing(files, d) && i <= |h| - from
    ensures i <= |files| && forall k :: 0 <= k < i ==> files[k] == from + k
    decreases i
  {
    forall n | n in files ensures from <= n {
      assert Archive(n) in d;
    }
    if i > 0 {
      NoGaps(d, from, h, files, i - 1);
      var n := from + i - 1;
      assert Archive(n) in d;
      var k: nat :| k < |files| && files[k] == n;
      Grows(files, from, k);
      assert k >= i - 1;
    }
  }

  lemma ListingIs(d: Disk, from: nat, h: seq<nat>, files: seq<nat>)
    requires Window(d, from, h) && from <= |h| && IsListing(files, d)
    ensures |files| == |h| - from && forall k :: 0 <= k < |files| ==> files[k] == from + k
  {
    NoGaps(d, from, h, files, |h| - from);
    if |files| > |h| - from {
      var m := |h| - from;
      forall n | n in files ensures from <= n {
        assert Archive(n) in d;
      }
      assert forall n :: n in files ==> Archive(n) in d;
      Grows(files, from, m);
    }
  }

  predicate Kept(max: int, i: nat) {
    max <= 0 || i < max - 1
  }

  /** In the middle of a roll: below n nothing has happened, n is free, above everything is one further. */
  ghost predicate Middle(d: Disk, h: seq<nat>, max: int, n: nat) {
    forall j: nat {:trigger Archive(j)} ::
      && (j < n ==> j < |h| && Archive(j) in d && d[Archive(j)] == h[j])
      && (j == n ==> Archive(j) !in d)
      && (j > n ==> (Archive(j) in d <==> j - 1 < |h| && Kept(max, j - 1)) && (Archive(j) in d ==>
          d[Archive(j)] == h[j - 1]))
  }

  lemma {:induction false} RollsDown(d: Disk, h: seq<nat>, files: seq<nat>, max: int, n: nat)
    requires Middle(d, h, max, n) && n <= |files| == |h| && (forall k :: 0 <= k < |files| ==> files[k] == k)
    ensures RollSpares(d, files, max, n) && RollDown(d, files, max, n).Some?
    ensures Middle(RollDown(d, files, max, n).value, h, max, 0)
    ensures Base in RollDown(d, files, max, n).value <==> Base in d
    ensures Base in d ==> RollDown(d, files, max, n).value[Base] == d[Base]
    decreases n
  {
    if n > 0 {
      assert Archive(n - 1) in d && files[n - 1] == n - 1;
      assert Archive(n) !in d;
      var e := RollOne(d, files, max, n - 1).value;
      assert Middle(e, h, max, n - 1);
      RollsDown(e, h, files, max, n - 1);
    } else {
      assert Archive(0) !in d;
    }
  }

  /** The newest contents, as many as are kept. */
  function Recent(max: int, h: seq<nat>): seq<nat> {
    if max > 0 && |h| > max then h[..max] else h
  }

  /** One rotation: no rename has a target that exists, and the base file becomes archive 0. */
  lemma RollOnce(d: Disk, h: seq<nat>, files: seq<nat>, max: int)
    requires Window(d, 0, h) && Base in d && (max > 0 ==> |h| <= max) && IsListing(files, d)
    ensures RollSpares(d, files, max, |files|) && Roll(d, files, max).Some?
    ensures Window(Roll(d, files, max).value, 0, Recent(max, [d[Base]] + h)) && Base !in Roll(d, files, max).value
  {
    ListingIs(d, 0, h, files);
    assert Middle(d, h, max, |h|);
    RollsDown(d, h, files, max, |files|);
    var e := RollDown(d, files, max, |files|).value;
    var r := Roll(d, files, max).value;
    var g := Recent(max, [d[Base]] + h);
    forall j: nat ensures (Archive(j) in r <==> j < |g|) && (j < |g| ==> r[Archive(j)] == g[j]) {
      assert Archive(j) in e || Archive(j) !in e;
      if j > 0 {
        assert j < |g| ==> g[j] == h[j - 1];
      }
    }
  }

  function Front(s: seq<nat>): (r: seq<nat>)
    requires |s| > 0
    ensures |r| == |s| - 1
  {
    s[..|s| - 1]
  }

  function Last(s: seq<nat>): nat
    requires |s| > 0
  {
    s[|s| - 1]
  }

  /** Rotations one after the other, each of a base file written anew, from an empty disk. */
  ghost predicate RollRun(max: int, contents: seq<nat>, d: Disk)
    decreases |contents|
  {
    if |contents| == 0 then d == map[]
    else exists e: Disk, files: seq<nat> ::
      RollRun(max, Front(contents), e) && RollsTo(max, Last(contents), e, files, d)
  }

  ghost predicate RollsTo(max: int, content: nat, d: Disk, files: seq<nat>, r: Disk) {
    IsListing(files, d[Base := content]) && Roll(d[Base := content], files, max) == Some(r)
  }

  function Reversed(s: seq<nat>): (r: seq<nat>)
    ensures |r| == |s|
  {
    if |s| == 0 then [] else [Last(s)] + Reversed(Front(s))
  }

  /** After every run archive j holds the j-th most recent base file, and at most max_count are kept. */
  lemma {:induction false} RollingKeepsRecent(max: int, contents: seq<nat>, d: Disk)
    requires RollRun(max, contents, d)
    ensures Window(d, 0, Recent(max, Reversed(contents))) && Base !in d
    decreases |contents|
  {
    if |contents| > 0 {
      var before, c := Front(contents), Last(contents);
      var e, files :| RollRun(max, before, e) && RollsTo(max, c, e, files, d);
      RollingKeepsRecent(max, before, e);
      var h := Recent(max, Reversed(before));
      assert Window(e[Base := c], 0, h);
      RollOnce(e[Base := c], h, files, max);
      assert Recent(max, [c] + h) == Recent(max, [c] + Reversed(before));
    }
  }

  // ---------- sequences over a run ----------

  lemma {:induction false} TrimsFront(d: Disk, from: nat, h: seq<nat>, files: seq<nat>, max: int, i: nat)
    requires from <= |h| && |files| == |h| - from && i <= |files| && (forall k :: 0 <= k < |files| ==>
      files[k] == from + k)
    requires Window(d, from + (if max > 0 then
      (if i < |files| - max then i else if |files| > max then |files| - max else 0) else 0), h)
    ensures Trim(d, files, max, i).Some?
    ensures Window(Trim(d, files, max, i).value, from + (if max > 0 && |files| > max then |files| - max else 0), h)
    ensures Base in Trim(d, files, max, i).value <==> Base in d
    ensures Base in d ==> Trim(d, files, max, i).value[Base] == d[Base]
    decreases |files| - i
  {
    if i < |files| {
      if max > 0 && i < |files| - max {
        assert Archive(from + i) in d && files[i] == from + i;
        var e := Unlink(d, Archive(files[i])).value;
        assert Window(e, from + i + 1, h);
        TrimsFront(e, from, h, files, max, i + 1);
      } else {
        TrimsFront(d, from, h, files, max, i + 1);
      }
    }
  }

  /** One rotation: the new index is the number of rotations before, so it is free and grows. */
  lemma SequenceOnce(d: Disk, from: nat, h: seq<nat>, files: seq<nat>, max: int)
    requires Window(d, from, h) && from <= |h| && (|h| > 0 ==> from < |h|) && Base in d && IsListing(files, d)
    ensures NextIndex(files) == |h| && Archive(|h|) !in d && Sequence(d, files, max).Some?
    ensures var from2 := from + (if max > 0 && |h| - from > max then |h| - from - max else 0);
      Window(Sequence(d, files, max).value, from2, h + [d[Base]]) && Base !in Sequence(d, files, max).value
  {
    ListingIs(d, from, h, files);
    TrimsFront(d, from, h, files, max, 0);
    assert Archive(|h|) !in d;
    var e := Trim(d, files, max, 0).value;
    var r := Sequence(d, files, max).value;
    var g, from2 := h + [d[Base]], from + (if max > 0 && |h| - from > max then |h| - from - max else 0);
    forall j: nat ensures (Archive(j) in r <==> from2 <= j < |g|) && (from2 <= j < |g| ==> r[Archive(j)] == g[j]) {
      assert Archive(j) in e || Archive(j) !in e;
    }
  }

  ghost predicate SequenceRun(max: int, contents: seq<nat>, d: Disk)
    decreases |contents|
  {
    if |contents| == 0 then d == map[]
    else exists e: Disk, files: seq<nat> ::
      SequenceRun(max, Front(contents), e) && SequencesTo(max, Last(contents), e, files, d)
  }

  ghost predicate SequencesTo(max: int, content: nat, d: Disk, files: seq<nat>, r: Disk) {
    IsListing(files, d[Base := content]) && Sequence(d[Base := content], files, max) == Some(r)
  }

  /** The first index that is left after n rotations. */
  function FirstLeft(max: int, n: nat): nat {
    if max > 0 && n > max + 1 then n - max - 1 else 0
  }

  /** After every run the archive of each rotation carries its number, and the newest max_count + 1 are left. */
  lemma {:induction false} SequenceKeepsRecent(max: int, contents: seq<nat>, d: Disk)
    requires SequenceRun(max, contents, d)
    ensures Window(d, FirstLeft(max, |contents|), contents) && Base !in d
    decreases |contents|
  {
    if |contents| > 0 {
      var before, c := Front(contents), Last(contents);
      var e, files :| SequenceRun(max, before, e) && SequencesTo(max, c, e, files, d);
      SequenceKeepsRecent(max, before, e);
      var from := FirstLeft(max, |before|);
      assert Window(e[Base := c], from, before);
      SequenceOnce(e[Base := c], from, before, files, max);
      assert before + [c] == contents;
    }
  }

  // ---------- runs of the code ----------

  /** The search for archives finds just those on the disk, in any order. */
  ghost predicate Finds(found: seq<nat>, d: Disk) {
    (forall i, j :: 0 <= i < j < |found| ==> found[i] != found[j]) && (forall n :: n in found <==> Archive(n) in d)
  }

  /** A file is written and `zlog_rotater_lsmv` called, after any number of rotations: it succeeds. */
  method RollAgain(r: Rotater, content: nat, found: seq<nat>, ghost contents: seq<nat>) returns (ok: bool)
    requires RollRun(r.maxCount, contents, r.disk) && Finds(found, r.disk)
    modifies r
    ensures ok && RollRun(r.maxCount, contents + [content], r.disk)
    ensures Window(r.disk, 0, Recent(r.maxCount, Reversed(contents + [content]))) && Base !in r.disk
  {
    ghost var was := r.disk;
    RollingKeepsRecent(r.maxCount, contents, was);
    r.Write(content);
    var files := List(found, r.disk);
    assert Window(r.disk, 0, Recent(r.maxCount, Reversed(contents)));
    RollOnce(r.disk, Recent(r.maxCount, Reversed(contents)), files, r.maxCount);
    ok := r.RollFiles(files);
    ghost var all := contents + [content];
    assert Front(all) == contents && Last(all) == content;
    assert RollsTo(r.maxCount, content, was, files, r.disk);
    RollingKeepsRecent(r.maxCount, all, r.disk);
  }

  lemma SequenceWorks(max: int, contents: seq<nat>, content: nat, was: Disk, files: seq<nat>)
    requires SequenceRun(max, contents, was) && IsListing(files, was[Base := content])
    ensures Sequence(was[Base := content], files, max).Some?
    ensures SequenceRun(max, contents + [content], Sequence(was[Base := content], files, max).value)
  {
    SequenceKeepsRecent(max, contents, was);
    var d, from := was[Base := content], FirstLeft(max, |contents|);
    assert Window(d, from, contents);
    SequenceOnce(d, from, contents, files, max);
    var all := contents + [content];
    assert Front(all) == contents && Last(all) == content;
    assert SequencesTo(max, content, was, files, Sequence(d, files, max).value);
  }

  method SequenceAgain(r: Rotater, content: nat, found: seq<nat>, ghost contents: seq<nat>) returns (ok: bool)
    requires SequenceRun(r.maxCount, contents, r.disk) && Finds(found, r.disk)
    modifies r
    ensures ok && SequenceRun(r.maxCount, contents + [content], r.disk)
    ensures Window(r.disk, FirstLeft(r.maxCount, |contents| + 1), contents + [content]) && Base !in r.disk
  {
    ghost var was := r.disk;
    r.Write(content);
    var files := List(found, r.disk);
    SequenceWorks(r.maxCount, contents, content, was, files);
    ok := r.SequenceFiles(files);
    SequenceKeepsRecent(r.maxCount, contents + [content], r.disk);
  }
}
