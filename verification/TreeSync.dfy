/** A whole sync meets its specification: the destination ends as the source asks, a stream
    that does not finish changes nothing, and the next sync has nothing to do. */
module TreeSync {
  import opened Basics
  import opened Paths
  import opened Transfer
  import opened Framing

  // --- manifests ---

  /** The manifest names exactly the files under the destination. */
  lemma ScanIs(w: Wire, fs: Fs, at: Path, bySum: bool, names: Path)
    requires Plain(names)
    ensures Text(names) in Scan(w, fs, at, bySum) <==> at + names in fs.files
    ensures at + names in fs.files ==>
            Scan(w, fs, at, bySum)[Text(names)] == EntryOf(w, Text(names), fs.files[at + names], bySum)
  {
    NamesOfText(names);
    var q := at + names;
    assert q[|at|..] == names;
    if q in fs.files { assert Text(q[|at|..]) in Under(fs.files, at); }
  }

  lemma ScanKeys(w: Wire, fs: Fs, at: Path, bySum: bool, t: string)
    requires FsOk(fs) && t in Scan(w, fs, at, bySum)
    ensures Plain(Names(t)) && Text(Names(t)) == t && at + Names(t) in fs.files
  {
    var q :| q in fs.files && at <= q && Text(q[|at|..]) == t;
    assert forall n :: n in q[|at|..] ==> n in q;
    NamesOfText(q[|at|..]);
  }

  lemma ExtrasAre(have: Manifest, source: Source)
    ensures forall e :: e in Extras(have, source) <==> e in have && e !in source
  {
    assert forall e :: e in Extras(have, source) <==> e in Elems(Extras(have, source));
  }

  lemma DistinctCons(x: string, s: seq<string>)
    requires Distinct(s)
    ensures x !in s ==> Distinct([x] + s)
  {
    var t := [x] + s;
    if x !in s {
      forall i, j | 0 <= i < |t| && 0 <= j < |t| ensures Apart(t, i, j) {
        assert Apart(s, i - 1, j - 1);
        if 0 == i < j { assert t[j] in s; }
      }
    }
  }

  lemma {:induction false} ToSendDistinct(w: Wire, have: Manifest, source: Source, paths: seq<string>, bySum: bool)
    requires (forall p :: p in paths ==> p in source) && Distinct(paths)
    ensures Distinct(ToSend(w, have, source, paths, bySum))
    decreases |paths|
  {
    if paths != [] {
      var rest := paths[1..];
      forall i, j | 0 <= i < |rest| && 0 <= j < |rest| ensures Apart(rest, i, j) { assert Apart(paths, i + 1, j + 1); }
      forall j | 0 <= j < |rest| ensures rest[j] != paths[0] { assert Apart(paths, 0, j + 1); }
      ToSendDistinct(w, have, source, rest, bySum);
      ToSendIsPart(w, have, source, rest, bySum);
      DistinctCons(paths[0], ToSend(w, have, source, rest, bySum));
      assert [] + ToSend(w, have, source, rest, bySum) == ToSend(w, have, source, rest, bySum);
    }
  }

  lemma DeltaDistinct(w: Wire, have: Manifest, source: Source, bySum: bool)
    ensures Distinct(Delta(w, have, source, bySum))
  {
    var all := Sorts(source);
    SortedSeqSorts(source.Keys);
    SortedDistinct(SortedSeq(source.Keys));
    ToSendDistinct(w, have, source, all, bySum);
  }

  lemma SortedDistinct(s: seq<string>)
    requires Sorted(s)
    ensures Distinct(s)
  {
    forall i, j | 0 <= i < |s| && 0 <= j < |s| ensures Apart(s, i, j) {
      if i < j { BelowTrichotomy(s[i], s[j]); }
    }
  }

  // --- the commit ---

  /** One of the lines is about q. */
  ghost predicate Hit(at: Path, victims: seq<string>, q: Path) {
    exists v :: v in victims && Land(at, v).Some? && at + Land(at, v).value == q
  }

  lemma HitSplit(at: Path, victims: seq<string>, q: Path)
    requires victims != []
    ensures Hit(at, victims, q) <==>
            (Land(at, victims[0]).Some? && at + Land(at, victims[0]).value == q) || Hit(at, victims[1..], q)
  {
    assert forall v :: v in victims <==> v == victims[0] || v in victims[1..];
  }

  /** What the deletions leave: every file and directory they are not about. When they all
      succeed, each was about something under the destination. */
  lemma {:induction false} RemovesOnly(fs: Fs, at: Path, victims: seq<string>, fails: Path -> bool)
    ensures var (fs1, ok) := RemoveAll(fs, at, victims, fails);
            && (forall q :: q in fs1.files ==> q in fs.files && fs1.files[q] == fs.files[q])
            && (forall q :: q in fs.files && !Hit(at, victims, q) ==> q in fs1.files)
            && fs1.dirs <= fs.dirs && (forall q :: q in fs.dirs && !Hit(at, victims, q) ==> q in fs1.dirs)
            && (ok ==> forall q :: q in fs1.files ==> !Hit(at, victims, q))
            && (ok ==> forall v :: v in victims ==> Land(at, v).Some? && Land(at, v).value != [])
    decreases |victims|
  {
    if victims != [] {
      assert forall v :: v in victims <==> v == victims[0] || v in victims[1..];
      if Removable(fs, at, victims[0], fails) {
        var hit := at + Land(at, victims[0]).value;
        RemovesOnly(Without(fs, hit), at, victims[1..], fails);
        forall q ensures Hit(at, victims, q) <==> hit == q || Hit(at, victims[1..], q) { HitSplit(at, victims, q); }
      }
    }
  }

  /** What placing leaves: the staged files where they belong, every other file as it was, and no
      directory lost. */
  lemma {:induction false} PlacesOnly(fs: Fs, at: Path, order: seq<Path>, tree: Files, fails: Path -> bool)
    requires forall k :: k in order ==> k in tree
    ensures var (fs1, ok) := PlaceAll(fs, at, order, tree, fails);
            && (forall q :: (forall k :: k in order ==> at + k != q) ==> Lookup(fs1, q) == Lookup(fs, q))
            && (ok ==> forall k :: k in order ==> Lookup(fs1, at + k) == Some(tree[k]))
            && fs.dirs <= fs1.dirs
    decreases |order|
  {
    if order != [] && Placeable(fs, at, order[0], fails) {
      var k, rest := order[0], order[1..];
      assert forall x :: x in order <==> x == k || x in rest;
      var next := With(fs, at + k, tree[k]);
      PlacesOnly(next, at, rest, tree, fails);
      var fs1 := PlaceAll(next, at, rest, tree, fails).0;
      if k !in rest {
        forall x | x in rest ensures at + x != at + k { assert (at + x)[|at|..] == x && (at + k)[|at|..] == k; }
        assert Lookup(fs1, at + k) == Lookup(next, at + k);
      }
    }
  }

  /** The directories a commit makes are those of what it places. */
  lemma {:induction false} PlacesIn(fs: Fs, at: Path, order: seq<Path>, tree: Files, fails: Path -> bool)
    requires forall k :: k in order ==> k in tree
    ensures var (fs1, ok) := PlaceAll(fs, at, order, tree, fails);
            && (forall q :: q in fs1.dirs ==> q in fs.dirs || exists k :: k in order && q in Parents(at + k))
            && (ok ==> forall k :: k in order ==> Parents(at + k) <= fs1.dirs && at + k !in fs.dirs)
    decreases |order|
  {
    if order != [] && Placeable(fs, at, order[0], fails) {
      var k, rest := order[0], order[1..];
      assert k in order && forall x :: x in rest ==> x in order;
      var next := With(fs, at + k, tree[k]);
      PlacesIn(next, at, rest, tree, fails);
      PlacesOnly(next, at, rest, tree, fails);
    }
  }

  lemma BlockedBy(files: Files, q: Path, r: Path)
    requires r in files && r < q
    ensures Blocked(files, q)
  {
    assert q[..|r|] == r;
  }

  /** A parent of a parent is a parent. */
  lemma ParentsNest(q: Path, r: Path)
    requires r in Parents(q)
    ensures Parents(r) <= Parents(q) && r != [] && r < q
  {
    forall p | p in Parents(r) ensures p in Parents(q) {
      var k :| 0 < k < |r| && p == r[..k];
      assert p == q[..k];
    }
  }

  lemma IsParent(q: Path, r: Path)
    requires r < q && r != []
    ensures r in Parents(q)
  {
    assert q[..|r|] == r;
  }

  /** No file stands where a directory of an existing path should be, and none has something
      below it. */
  lemma FilesApart(fs: Fs, q: Path, r: Path)
    requires FsOk(fs) && (q in fs.files || q in fs.dirs)
    ensures r in fs.files ==> !(r < q)
  {
    if r in fs.files && r < q { IsParent(q, r); }
  }

  /** The file system stays one. */
  lemma {:induction false} RemoveKeepsFs(fs: Fs, at: Path, victims: seq<string>, fails: Path -> bool)
    requires FsOk(fs)
    ensures FsOk(RemoveAll(fs, at, victims, fails).0)
    decreases |victims|
  {
    if victims != [] && Removable(fs, at, victims[0], fails) {
      var q := at + Land(at, victims[0]).value;
      WithoutKeepsFs(fs, q);
      RemoveKeepsFs(Without(fs, q), at, victims[1..], fails);
    }
  }

  lemma WithoutKeepsFs(fs: Fs, q: Path)
    requires FsOk(fs) && (q in fs.dirs ==> !InUse(fs, q))
    ensures FsOk(Without(fs, q))
  {
    var next := Without(fs, q);
    forall r | r in next.files || r in next.dirs ensures Parents(r) <= next.dirs {
      if q in Parents(r) { ParentsNest(r, q); }
    }
  }

  lemma WithKeepsFs(fs: Fs, q: Path, n: Node)
    requires FsOk(fs) && Plain(q) && q != [] && !Blocked(fs.files, q) && q !in fs.dirs
    ensures FsOk(With(fs, q, n))
  {
    MadeKeepsFs(fs, q);
  }

  lemma MadeKeepsFs(fs: Fs, q: Path)
    requires FsOk(fs) && Plain(q) && !Blocked(fs.files, q)
    ensures FsOk(Made(fs, q)) && q !in Parents(q)
  {
    var next := Made(fs, q);
    forall r | r in Parents(q) ensures Plain(r) && Parents(r) <= next.dirs && r !in next.files && r != [] {
      ParentsNest(q, r);
      if r in fs.files { BlockedBy(fs.files, q, r); }
    }
  }

  lemma {:induction false} PlaceKeepsFs(fs: Fs, at: Path, order: seq<Path>, tree: Files, fails: Path -> bool)
    requires FsOk(fs) && Plain(at) && forall k :: k in order ==> k in tree && Plain(k)
    ensures FsOk(PlaceAll(fs, at, order, tree, fails).0)
    decreases |order|
  {
    if order != [] && Reachable(fs, at, order[0]) {
      assert order[0] in order;
      MadeKeepsFs(fs, at + order[0]);
    }
    if order != [] && Placeable(fs, at, order[0], fails) {
      assert order[0] in order && forall k :: k in order[1..] ==> k in order;
      WithKeepsFs(fs, at + order[0], tree[order[0]]);
      PlaceKeepsFs(With(fs, at + order[0], tree[order[0]]), at, order[1..], tree, fails);
    }
  }

  // --- streams that do not finish ---

  /** A message no receiver goes past: an error, or a chunk that does not decode. */
  ghost predicate Bad(w: Wire, m: Msg) {
    m.Answer? || (m.FileMsg? && m.data != "" && w.dec(m.data).None?)
  }

  lemma BadStops(c: Ctx, d: Dec, m: Msg)
    requires d.Run? && Bad(c.w, m)
    ensures !Feed(c, d, m).Run? && !Feed(c, d, m).Ended?
  {
  }

  /** No terminator, or something bad before it: the receiver does not end. */
  lemma {:induction false} Unfinished(c: Ctx, d: Dec, msgs: seq<Msg>, i: nat)
    requires !d.Ended? && i <= |msgs| && (i < |msgs| ==> Bad(c.w, msgs[i]))
    requires forall j :: 0 <= j < i ==> !msgs[j].Terminator?
    ensures !Feeds(c, d, msgs).Ended?
    decreases i
  {
    if d.Run? && msgs != [] {
      if i == 0 {
        BadStops(c, d, msgs[0]);
      } else {
        Unfinished(c, Feed(c, d, msgs[0]), msgs[1..], i - 1);
      }
    }
  }

  /** What a cleared staging area holds: nothing. */
  lemma ClearedIsEmpty(tree: Files)
    ensures Cleared(tree, tree.Keys) == map[]
  {
  }

  /** Whatever attempt decides, it works on an empty staging area. */
  lemma FinalIs(y: Sync)
    ensures Final(y) == Stream(Deciding(y), map[]) || Final(y) == Refused
    ensures !y.clearFails ==> Final(y) == Stream(Deciding(y), map[])
  {
    var first := Stream(y.first, map[]);
    if first.Run? { ClearedIsEmpty(first.tree); }
  }

  /** A transfer cut before its terminator, refused, or corrupted before it, leaves the
      destination as it was and deletes nothing. */
  lemma CutLeavesDestination(y: Sync, fs: Fs, i: nat)
    requires WalkOk(y.walk)
    requires var a := Deciding(y);
             var own := Own(a.ctx.id, a.arrivals);
             i <= |own| && (i < |own| ==> Bad(a.ctx.w, own[i])) && forall j :: 0 <= j < i ==> !own[j].Terminator?
    ensures RunSync(y, fs) == (fs, Failed)
  {
    var a := Deciding(y);
    FinalIs(y);
    OwnOnly(a.ctx, Run(None, map[]), a.arrivals);
    Unfinished(a.ctx, Run(None, map[]), Own(a.ctx.id, a.arrivals), i);
  }

  /** What an attempt finds in the staging area it leaves there, unless it stages that path
      itself: this is why the area must be emptied. */
  lemma {:induction false} LeftoversStay(c: Ctx, d: Dec, arrivals: seq<Arrival>, q: Path)
    requires d.Run? && q in d.tree
    ensures var e := Decode(c, d, arrivals);
            (e.Run? ==> q in e.tree) && (e.Ended? ==> q in e.landed)
    decreases |arrivals|
  {
    if arrivals != [] {
      var a := arrivals[0];
      if a.msg.id != c.id {
        LeftoversStay(c, d, arrivals[1..], q);
      } else if !(a.msg.FileMsg? && a.ioFails) && Feed(c, d, a.msg).Run? {
        LeftoversStay(c, Feed(c, d, a.msg), arrivals[1..], q);
      }
    }
  }

  /** Some message of the attempt is for the file that lands there. */
  ghost predicate Sends(c: Ctx, arrivals: seq<Arrival>, k: Path) {
    exists m :: m in Own(c.id, arrivals) && m.FileMsg? && Land(c.tree, m.path) == Some(k)
  }

  ghost predicate Holds(d: Dec, k: Path) {
    match d
    case Run(open, tree) => k in tree || (open.Some? && open.value.key == k)
    case Ended(_, _, landed) => k in landed
    case _ => false
  }

  lemma FeedHolds(c: Ctx, d: Dec, m: Msg, k: Path)
    requires d.Run? && Holds(Feed(c, d, m), k)
    ensures Holds(d, k) || (m.FileMsg? && Land(c.tree, m.path) == Some(k))
  {
  }

  /** Nothing is staged but what was there and what the attempt's own messages are for. */
  lemma {:induction false} StagedWasSent(c: Ctx, d: Dec, arrivals: seq<Arrival>, k: Path)
    requires d.Run? && Holds(Decode(c, d, arrivals), k)
    ensures Holds(d, k) || Sends(c, arrivals, k)
    decreases |arrivals|
  {
    if arrivals != [] {
      var a := arrivals[0];
      var own, rest := Own(c.id, arrivals), Own(c.id, arrivals[1..]);
      assert forall m :: m in rest ==> m in own;
      if a.msg.id != c.id {
        StagedWasSent(c, d, arrivals[1..], k);
      } else if !(a.msg.FileMsg? && a.ioFails) {
        var next := Feed(c, d, a.msg);
        assert a.msg in own;
        if next.Run? {
          StagedWasSent(c, next, arrivals[1..], k);
        } else {
          assert Decode(c, next, arrivals[1..]) == next;
        }
        if Holds(next, k) { FeedHolds(c, d, a.msg, k); }
      }
    }
  }

  /** After a session that was gone, the commit places only the second attempt's files: with the
      area emptied, the sync is the one its second attempt makes alone; and when emptying it
      fails, nothing is placed and nothing is deleted. */
  lemma RetryIsFresh(y: Sync, fs: Fs, k: Path)
    requires WalkOk(y.walk) && Stream(y.first, map[]).Run?
    ensures y.clearFails ==> RunSync(y, fs) == (fs, Failed)
    ensures !y.clearFails ==>
              RunSync(y, fs) == RunSync(y.(first := y.second, second := Attempt(false, false, y.second.ctx, [])), fs)
    ensures !Sends(y.second.ctx, y.second.arrivals, k) ==>
              Lookup(RunSync(y, fs).0, y.at + k) == None || Lookup(RunSync(y, fs).0, y.at + k) == Lookup(fs, y.at + k)
  {
    var first := Stream(y.first, map[]);
    ClearedIsEmpty(first.tree);
    if !Sends(y.second.ctx, y.second.arrivals, k) { UnsentStays(y, fs, k); }
  }

  /** A file the deciding attempt does not send is as it was, or deleted. */
  lemma UnsentStays(y: Sync, fs: Fs, k: Path)
    requires WalkOk(y.walk) && !Sends(Deciding(y).ctx, Deciding(y).arrivals, k)
    ensures Lookup(RunSync(y, fs).0, y.at + k) == None || Lookup(RunSync(y, fs).0, y.at + k) == Lookup(fs, y.at + k)
  {
    var d, a := Final(y), Deciding(y);
    FinalIs(y);
    if d.Ended? && !(y.del && d.extras != [] && y.listFails) {
      if k in d.landed { StagedWasSent(a.ctx, Run(None, map[]), a.arrivals, k); }
      var victims := Victims(y, d.extras);
      RemovesOnly(fs, y.at, victims, y.fails);
      var (fs1, ok) := RemoveAll(fs, y.at, victims, y.fails);
      if ok {
        WalkIn(y.walk, d.landed);
        var order := y.walk(d.landed.Keys);
        PlacesOnly(fs1, y.at, order, d.landed, y.fails);
        forall n | n in order ensures y.at + n != y.at + k {
          assert n in d.landed && (y.at + n)[|y.at|..] == n && (y.at + k)[|y.at|..] == k;
        }
      }
    }
  }

  /** Whatever the stream says, no file outside the destination changes and no directory there
      goes; a directory may be made on the way to the destination. */
  lemma NothingOutside(y: Sync, fs: Fs, q: Path)
    requires WalkOk(y.walk) && !(y.at <= q)
    ensures Lookup(RunSync(y, fs).0, q) == Lookup(fs, q)
    ensures q in fs.dirs ==> q in RunSync(y, fs).0.dirs
    ensures q in RunSync(y, fs).0.dirs ==> q in fs.dirs || q < y.at
  {
    var d := Final(y);
    if d.Ended? && !(y.del && d.extras != [] && y.listFails) {
      var victims := Victims(y, d.extras);
      RemovesOnly(fs, y.at, victims, y.fails);
      var (fs1, ok) := RemoveAll(fs, y.at, victims, y.fails);
      assert !Hit(y.at, victims, q);
      if ok {
        WalkIn(y.walk, d.landed);
        PlacesOnly(fs1, y.at, y.walk(d.landed.Keys), d.landed, y.fails);
        PlacesIn(fs1, y.at, y.walk(d.landed.Keys), d.landed, y.fails);
        forall k | q in Parents(y.at + k) ensures q < y.at { AboveAt(y.at, k, q); }
      }
    }
  }

  lemma AboveAt(at: Path, k: Path, q: Path)
    requires q in Parents(at + k) && !(at <= q)
    ensures q < at
  {
    var n :| 0 < n < |at + k| && q == (at + k)[..n];
    if n < |at| { assert q == at[..n]; }
  }

  lemma WalkIn(walk: set<Path> -> seq<Path>, tree: Files)
    requires WalkOk(walk)
    ensures forall k :: k in walk(tree.Keys) <==> k in tree
  {
    assert forall k :: k in walk(tree.Keys) <==> k in Elems(walk(tree.Keys));
  }

  // --- a sync that succeeds ---

  /** What a sync is about: the codec, the source and how it reads, the comparison. */
  datatype Task = Task(w: Wire, source: Source, disk: Disk, bySum: bool)

  ghost predicate TaskOk(k: Task) {
    WireOk(k.w) && SourceOk(k.source) && DiskOk(k.disk, k.source)
  }

  /** The messages of this exchange are what the control host sends for that manifest, as far
      as the connection lasted: the stream, or a refusal. */
  ghost predicate Honest(k: Task, a: Attempt, have: Manifest)
    requires SourceOk(k.source)
  {
    && a.ctx.w == k.w
    && var own := Own(a.ctx.id, a.arrivals);
       own <= HostStream(k.w, a.ctx.id, have, k.source, k.disk, k.bySum, false) ||
         exists e :: own <= [Answer(a.ctx.id, e)]
  }

  /** Part of a stream is still running, or is already all the receiver will make of it. */
  lemma Prefixed(c: Ctx, d: Dec, own: seq<Msg>, whole: seq<Msg>)
    requires own <= whole
    ensures Feeds(c, d, own).Run? || Feeds(c, d, own) == Feeds(c, d, whole)
  {
    assert whole == own + whole[|own|..];
    FeedsAppend(c, d, own, whole[|own|..]);
  }

  lemma RefusalRefuses(c: Ctx, d: Dec, own: seq<Msg>, e: string)
    requires d.Run? && own <= [Answer(c.id, e)]
    ensures Feeds(c, d, own) == d || Feeds(c, d, own) == Refused
  {
    if own != [] { assert own[1..] == []; }
  }

  /** Whatever the receiver makes of an honest exchange is what it makes of the whole stream,
      unless it is still running or refused. */
  lemma HonestDecodes(k: Task, a: Attempt, have: Manifest)
    requires TaskOk(k) && Honest(k, a, have)
    ensures Stream(a, map[]).Run? || Stream(a, map[]).Refused? ||
            Stream(a, map[]) ==
              Feeds(a.ctx, Run(None, map[]), HostStream(k.w, a.ctx.id, have, k.source, k.disk, k.bySum, false))
  {
    var c, d, own := a.ctx, Run(None, map[]), Own(a.ctx.id, a.arrivals);
    OwnOnly(c, d, a.arrivals);
    if own <= HostStream(k.w, c.id, have, k.source, k.disk, k.bySum, false) {
      Prefixed(c, d, own, HostStream(k.w, c.id, have, k.source, k.disk, k.bySum, false));
    } else {
      var e :| own <= [Answer(c.id, e)];
      RefusalRefuses(c, d, own, e);
    }
  }

  /** An exchange that ends is the whole stream. */
  lemma HonestEnds(k: Task, a: Attempt, have: Manifest)
    requires TaskOk(k) && Honest(k, a, have) && Stream(a, map[]).Ended?
    ensures var sent := Delta(k.w, have, k.source, k.bySum);
            Stream(a, map[]) == Ended(|sent|, Extras(have, k.source), Staged(map[], k.source, sent, a.ctx.stamp))
  {
    HonestDecodes(k, a, have);
    FramingRoundTrip(a.ctx, have, k.source, k.disk, k.bySum);
  }

  ghost predicate SyncOk(k: Task, y: Sync, fs: Fs) {
    && TaskOk(k) && FsOk(fs) && Plain(y.at) && WalkOk(y.walk)
    && Honest(k, y.first, Scan(k.w, fs, y.at, k.bySum))
    && Honest(k, y.second, Scan(k.w, fs, y.at, k.bySum))
  }

  /** A deletion list survives being written a line each. */
  ghost predicate OneLine(fs: Fs, at: Path) {
    forall q :: q in fs.files && at <= q ==> forall n :: n in q[|at|..] ==> '\n' !in n
  }

  lemma {:induction false} JoinNoNewline(names: seq<string>)
    requires forall n :: n in names ==> '\n' !in n
    ensures '\n' !in Join(names, "/")
    decreases |names|
  {
    if names != [] {
      assert names[0] in names && forall n :: n in names[1..] ==> n in names;
      if |names| > 1 { JoinNoNewline(names[1..]); }
    }
  }

  /** A path of the manifest is one line. */
  lemma ExtraIsLine(k: Task, fs: Fs, at: Path, v: string)
    requires FsOk(fs) && OneLine(fs, at) && v in Scan(k.w, fs, at, k.bySum)
    ensures v != "" && '\n' !in v
  {
    ScanKeys(k.w, fs, at, k.bySum, v);
    var names := Names(v);
    assert (at + names)[|at|..] == names;
    if names != [] {
      assert names[0] in names;
      JoinNoNewline(names);
    }
  }

  lemma VictimsAre(y: Sync, extras: seq<string>)
    requires y.del ==> forall v :: v in extras ==> v != "" && '\n' !in v
    ensures Victims(y, extras) == if y.del then extras else []
  {
    if y.del && extras != [] { ListRoundTrip(extras); }
  }

  /** The source has p and the target does not, or not that one. */
  ghost predicate Due(k: Task, have: Manifest, p: string) {
    p in k.source && !Same(Have(have, p), EntryOf(k.w, p, k.source[p], k.bySum), k.bySum)
  }

  /** The staged tree is what is due, delivered. */
  ghost predicate Lands(k: Task, have: Manifest, tree: Files, stamp: int)
    requires TaskOk(k)
  {
    && (forall p :: Due(k, have, p) ==> Names(p) in tree && tree[Names(p)] == Delivered(k.source[p], stamp))
    && (forall n :: n in tree ==> Plain(n) && n != [] && Due(k, have, Text(n)) && Names(Text(n)) == n)
  }

  lemma StagedLands(k: Task, have: Manifest, stamp: int)
    requires TaskOk(k)
    ensures Lands(k, have, Staged(map[], k.source, Delta(k.w, have, k.source, k.bySum), stamp), stamp)
  {
    var sent := Delta(k.w, have, k.source, k.bySum);
    ToSendIsPart(k.w, have, k.source, Sorts(k.source), k.bySum);
    assert forall p :: p in sent <==> Due(k, have, p);
    StagedIs(map[], k.source, sent, stamp);
    forall n | n in Staged(map[], k.source, sent, stamp)
      ensures Plain(n) && n != [] && Due(k, have, Text(n)) && Names(Text(n)) == n
    {
      var p :| p in sent && Names(p) == n;
      LandNames([], p);
    }
  }

  /** The paths a deletion list built from the manifest is about. */
  ghost predicate Gone(k: Task, y: Sync, fs: Fs, q: Path) {
    y.del && q in fs.files && y.at <= q && Text(q[|y.at|..]) !in k.source
  }

  /** What the two halves of the commit did with a staged tree. */
  ghost predicate Committed(k: Task, y: Sync, fs: Fs, fs1: Fs, fs2: Fs, tree: Files) {
    && (forall q :: Lookup(fs1, q) == if Gone(k, y, fs, q) then None else Lookup(fs, q))
    && (forall q :: (forall n :: n in tree ==> y.at + n != q) ==> Lookup(fs2, q) == Lookup(fs1, q))
    && (forall n :: n in tree ==> Lookup(fs2, y.at + n) == Some(tree[n]))
  }

  /** The state a successful sync leaves, path by path. */
  ghost predicate Met(k: Task, y: Sync, fs: Fs, fs2: Fs, stamp: int) {
    forall q :: Lookup(fs2, q) == Goal(k.w, Scan(k.w, fs, y.at, k.bySum), fs, y.at, k.source, k.bySum, y.del, stamp, q)
  }

  lemma GoalAtSource(k: Task, y: Sync, have: Manifest, fs: Fs, stamp: int, q: Path, p: string)
    requires SourceOk(k.source) && SourceAt(k.source, y.at, q) == Some(p)
    ensures Goal(k.w, have, fs, y.at, k.source, k.bySum, y.del, stamp, q) ==
            if Due(k, have, p) then Some(Delivered(k.source[p], stamp)) else Lookup(fs, q)
    ensures p == Text(q[|y.at|..]) && Names(p) == q[|y.at|..] && q == y.at + Names(p)
  {
    NamesOfText(q[|y.at|..]);
    assert q == y.at + q[|y.at|..] && p in k.source && k.source[p].File?;
  }

  /** The commit of exactly what was due meets the goal at a source path. */
  lemma MetAtSource(k: Task, y: Sync, fs: Fs, fs1: Fs, fs2: Fs, tree: Files, stamp: int, q: Path)
    requires TaskOk(k) && FsOk(fs) && SourceAt(k.source, y.at, q).Some?
    requires Lands(k, Scan(k.w, fs, y.at, k.bySum), tree, stamp) && Committed(k, y, fs, fs1, fs2, tree)
    ensures Lookup(fs2, q) == Goal(k.w, Scan(k.w, fs, y.at, k.bySum), fs, y.at, k.source, k.bySum, y.del, stamp, q)
  {
    var p := SourceAt(k.source, y.at, q).value;
    GoalAtSource(k, y, Scan(k.w, fs, y.at, k.bySum), fs, stamp, q, p);
    PlacedOrKept(k, y, fs, fs1, fs2, tree, Scan(k.w, fs, y.at, k.bySum), stamp, q, p);
  }

  lemma PlacedOrKept(k: Task, y: Sync, fs: Fs, fs1: Fs, fs2: Fs, tree: Files, have: Manifest, stamp: int, q: Path,
      p: string)
    requires TaskOk(k) && Lands(k, have, tree, stamp) && Committed(k, y, fs, fs1, fs2, tree)
    requires p in k.source && q == y.at + Names(p) && Text(q[|y.at|..]) == p
    ensures Lookup(fs2, q) == if Due(k, have, p) then Some(Delivered(k.source[p], stamp)) else Lookup(fs, q)
  {
    var names := Names(p);
    assert q[|y.at|..] == names;
    if !Due(k, have, p) {
      assert names !in tree;
      forall n | n in tree ensures y.at + n != q { assert (y.at + n)[|y.at|..] == n; }
      assert !Gone(k, y, fs, q);
    }
  }

  lemma MetElsewhere(k: Task, y: Sync, fs: Fs, fs1: Fs, fs2: Fs, tree: Files, stamp: int, q: Path)
    requires TaskOk(k) && FsOk(fs) && SourceAt(k.source, y.at, q).None?
    requires Lands(k, Scan(k.w, fs, y.at, k.bySum), tree, stamp) && Committed(k, y, fs, fs1, fs2, tree)
    ensures Lookup(fs2, q) == Goal(k.w, Scan(k.w, fs, y.at, k.bySum), fs, y.at, k.source, k.bySum, y.del, stamp, q)
  {
    forall n | n in tree ensures y.at + n != q { assert (y.at + n)[|y.at|..] == n; }
    if y.at <= q && q in fs.files {
      assert Plain(q) && forall n :: n in q[|y.at|..] ==> n in q;
      if q == y.at {
        assert q[|y.at|..] == [] && Names(".") == [];
      }
    }
  }

  /** What a deletion list made from the manifest is about. */
  lemma GoneIsHit(k: Task, y: Sync, fs: Fs, victims: seq<string>, q: Path)
    requires TaskOk(k) && FsOk(fs) && q in fs.files
    requires forall v :: v in victims <==> y.del && v in Scan(k.w, fs, y.at, k.bySum) && v !in k.source
    ensures Hit(y.at, victims, q) <==> Gone(k, y, fs, q)
  {
    if Gone(k, y, fs, q) {
      var names := q[|y.at|..];
      assert q == y.at + names && forall n :: n in names ==> n in q;
      ScanIs(k.w, fs, y.at, k.bySum, names);
      LandText2(y.at, names);
      assert Text(names) in victims;
    }
    if Hit(y.at, victims, q) {
      var v :| v in victims && Land(y.at, v).Some? && y.at + Land(y.at, v).value == q;
      ScanKeys(k.w, fs, y.at, k.bySum, v);
      LandText2(y.at, Names(v));
      assert q[|y.at|..] == Names(v);
    }
  }

  lemma WalkDot(at: Path)
    ensures Land(at, ".") == Some([])
  {
    SplitOne(".", '/');
    assert Walk(at, ["."]) == at by { assert ["."][1..] == []; }
    assert at[|at|..] == [];
  }

  lemma LandText2(at: Path, names: Path)
    requires Plain(names)
    ensures Land(at, Text(names)) == Some(names)
  {
    if names == [] { WalkDot(at); } else { LandText(at, names); }
  }

  lemma CommitDoes(k: Task, y: Sync, fs: Fs, extras: seq<string>, tree: Files)
    requires TaskOk(k) && FsOk(fs) && WalkOk(y.walk) && (y.del ==> OneLine(fs, y.at))
    requires extras == Extras(Scan(k.w, fs, y.at, k.bySum), k.source) && Commit(y, fs, extras, tree).1
    ensures Committed(k, y, fs, RemoveAll(fs, y.at, Victims(y, extras), y.fails).0, Commit(y, fs, extras, tree).0, tree)
  {
    var have := Scan(k.w, fs, y.at, k.bySum);
    ExtrasAre(have, k.source);
    forall v | y.del && v in extras ensures v != "" && '\n' !in v { ExtraIsLine(k, fs, y.at, v); }
    VictimsAre(y, extras);
    DeletesGone(k, y, fs, Victims(y, extras));
    WalkIn(y.walk, tree);
    PlacesOnly(RemoveAll(fs, y.at, Victims(y, extras), y.fails).0, y.at, y.walk(tree.Keys), tree, y.fails);
  }

  lemma DeletesGone(k: Task, y: Sync, fs: Fs, victims: seq<string>)
    requires TaskOk(k) && FsOk(fs)
    requires forall v :: v in victims <==> y.del && v in Scan(k.w, fs, y.at, k.bySum) && v !in k.source
    requires RemoveAll(fs, y.at, victims, y.fails).1
    ensures forall q :: Lookup(RemoveAll(fs, y.at, victims, y.fails).0, q) == if Gone(k, y, fs, q) then None
            else Lookup(fs, q)
  {
    var fs1 := RemoveAll(fs, y.at, victims, y.fails).0;
    RemovesOnly(fs, y.at, victims, y.fails);
    forall q ensures Lookup(fs1, q) == if Gone(k, y, fs, q) then None else Lookup(fs, q) {
      if q in fs.files { GoneIsHit(k, y, fs, victims, q); }
    }
  }

  /** A deletion list built from the manifest is about files: no directory goes. */
  lemma DirsStay(k: Task, y: Sync, fs: Fs, victims: seq<string>)
    requires FsOk(fs) && forall v :: v in victims ==> v in Scan(k.w, fs, y.at, k.bySum)
    ensures RemoveAll(fs, y.at, victims, y.fails).0.dirs == fs.dirs
  {
    RemovesOnly(fs, y.at, victims, y.fails);
    forall q | q in fs.dirs ensures !Hit(y.at, victims, q) {
      forall v | v in victims && Land(y.at, v).Some? ensures y.at + Land(y.at, v).value != q {
        ScanKeys(k.w, fs, y.at, k.bySum, v);
        LandText2(y.at, Names(v));
      }
    }
  }

  /** The directories a successful sync leaves: those there were, and those its files are in. */
  ghost predicate DirsMet(k: Task, y: Sync, fs: Fs, fs2: Fs) {
    forall q :: q in fs2.dirs <==>
      q in fs.dirs || exists p :: Due(k, Scan(k.w, fs, y.at, k.bySum), p) && q in Parents(y.at + Names(p))
  }

  lemma CommitMakesDirs(k: Task, y: Sync, fs: Fs, extras: seq<string>, tree: Files, stamp: int)
    requires TaskOk(k) && FsOk(fs) && WalkOk(y.walk) && (y.del ==> OneLine(fs, y.at))
    requires extras == Extras(Scan(k.w, fs, y.at, k.bySum), k.source) && Commit(y, fs, extras, tree).1
    requires Lands(k, Scan(k.w, fs, y.at, k.bySum), tree, stamp)
    ensures DirsMet(k, y, fs, Commit(y, fs, extras, tree).0)
    ensures forall n :: n in tree ==> y.at + n !in fs.dirs
  {
    var have := Scan(k.w, fs, y.at, k.bySum);
    ExtrasAre(have, k.source);
    forall v | y.del && v in extras ensures v != "" && '\n' !in v { ExtraIsLine(k, fs, y.at, v); }
    VictimsAre(y, extras);
    DirsStay(k, y, fs, Victims(y, extras));
    var fs1 := RemoveAll(fs, y.at, Victims(y, extras), y.fails).0;
    WalkIn(y.walk, tree);
    PlacesIn(fs1, y.at, y.walk(tree.Keys), tree, y.fails);
    PlacesOnly(fs1, y.at, y.walk(tree.Keys), tree, y.fails);
    var fs2 := Commit(y, fs, extras, tree).0;
    forall q ensures q in fs2.dirs <==> q in fs.dirs || exists p :: Due(k, have, p) && q in Parents(y.at + Names(p)) {
      if n :| n in tree && q in Parents(y.at + n) { assert Due(k, have, Text(n)) && Names(Text(n)) == n; }
      if p :| Due(k, have, p) && q in Parents(y.at + Names(p)) { assert Names(p) in tree; }
    }
  }

  /** A successful sync makes the destination what the source asks for, path by path, and
      reports how many files it delivered and removed. Nothing is assumed of the chunks, of
      other exchanges on the socket, or of where the first session was lost. */
  lemma SyncMeetsGoal(k: Task, y: Sync, fs: Fs)
    requires SyncOk(k, y, fs) && (y.del ==> OneLine(fs, y.at)) && RunSync(y, fs).1.Ok?
    ensures var have := Scan(k.w, fs, y.at, k.bySum);
            && Met(k, y, fs, RunSync(y, fs).0, Deciding(y).ctx.stamp) && DirsMet(k, y, fs, RunSync(y, fs).0)
            && RunSync(y, fs).1 ==
              Ok(|Delta(k.w, have, k.source, k.bySum)|, if y.del then |Extras(have, k.source)| else 0)
  {
    var have := Scan(k.w, fs, y.at, k.bySum);
    var a := Deciding(y);
    FinalIs(y);
    HonestEnds(k, a, have);
    var tree := Staged(map[], k.source, Delta(k.w, have, k.source, k.bySum), a.ctx.stamp);
    StagedLands(k, have, a.ctx.stamp);
    var fs1 := RemoveAll(fs, y.at, Victims(y, Extras(have, k.source)), y.fails).0;
    CommitDoes(k, y, fs, Extras(have, k.source), tree);
    CommitMakesDirs(k, y, fs, Extras(have, k.source), tree, a.ctx.stamp);
    var fs2 := RunSync(y, fs).0;
    forall q
      ensures Lookup(fs2, q) ==
              Goal(k.w, Scan(k.w, fs, y.at, k.bySum), fs, y.at, k.source, k.bySum, y.del, a.ctx.stamp, q)
    {
      if SourceAt(k.source, y.at, q).Some? {
        MetAtSource(k, y, fs, fs1, fs2, tree, a.ctx.stamp, q);
      } else {
        MetElsewhere(k, y, fs, fs1, fs2, tree, a.ctx.stamp, q);
      }
    }
  }
}
