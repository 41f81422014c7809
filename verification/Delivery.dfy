/** A sync whose stream arrives whole succeeds: the receiver never trips over what a control
    host sends, every deletion and every placement finds its way. */
module Delivery {
  import opened Basics
  import opened Paths
  import opened Transfer
  import opened Framing
  import opened TreeSync

  /** What a control host sends, cut anywhere, never crashes the receiver. */
  lemma HonestNeverCrashes(k: Task, a: Attempt, have: Manifest)
    requires TaskOk(k) && Honest(k, a, have)
    ensures !Stream(a, map[]).Crashed?
  {
    HonestDecodes(k, a, have);
    FramingRoundTrip(a.ctx, have, k.source, k.disk, k.bySum);
  }

  /** The path being staged. */
  function NameOf(open: Option<Open>): Option<string> {
    if open.None? then None else Some(open.value.rel)
  }

  /** What a file message leaves open. */
  function OpenAfter(open: Option<string>, m: Msg): Option<string>
    requires m.FileMsg?
  {
    if m.last || (open.None? && m.mode == "") then None else Some(m.path)
  }

  /** Some message, before the first that ends the exchange, carries data or a close for a file
      that nothing opened: no file is open, and it has no mode. */
  predicate Stray(open: Option<string>, msgs: seq<Msg>)
    decreases |msgs|
  {
    && msgs != [] && msgs[0].FileMsg?
    && ((open.None? && msgs[0].mode == "" && (msgs[0].data != "" || msgs[0].last))
        || Stray(OpenAfter(open, msgs[0]), msgs[1..]))
  }

  lemma FeedStray(c: Ctx, d: Dec, m: Msg)
    requires d.Run? && m.FileMsg?
    ensures var d1, stray := Feed(c, d, m), d.open.None? && m.mode == "" && (m.data != "" || m.last);
            && !d1.Ended?
            && (d1.Crashed? <==> stray && !d1.Refused?)
            && (d1.Run? ==> NameOf(d1.open) == OpenAfter(NameOf(d.open), m))
  {
  }

  lemma {:induction false} CrashesOnStray(c: Ctx, d: Dec, msgs: seq<Msg>)
    requires d.Run?
    ensures Feeds(c, d, msgs).Crashed? <==> Stray(NameOf(d.open), msgs) && !Feeds(c, d, msgs).Refused?
    decreases |msgs|
  {
    if msgs != [] {
      var d1 := Feed(c, d, msgs[0]);
      if msgs[0].FileMsg? { FeedStray(c, d, msgs[0]); }
      if d1.Run? { CrashesOnStray(c, d1, msgs[1..]); }
    }
  }

  /** Exactly which streams crash the receiver: those with a stray message, read off the messages
      alone, that nothing refuses before it. */
  lemma CrashesExactly(a: Attempt)
    requires a.attached && a.sent
    ensures Stream(a, map[]).Crashed? <==>
            Stray(None, Own(a.ctx.id, a.arrivals)) && !Stream(a, map[]).Refused?
  {
    OwnOnly(a.ctx, Run(None, map[]), a.arrivals);
    CrashesOnStray(a.ctx, Run(None, map[]), Own(a.ctx.id, a.arrivals));
  }

  /** The shortest: a chunk for a file that nothing opened. */
  lemma StrayChunkCrashes(c: Ctx, path: string, data: string)
    requires data != "" && c.w.dec(data).Some?
    ensures Decode(c, Run(None, map[]), [Arrival(FileMsg(c.id, path, "", 0, data, false), false)]) == Crashed
  {
    var a := Arrival(FileMsg(c.id, path, "", 0, data, false), false);
    assert Feed(c, Run(None, map[]), a.msg) == Crashed;
    assert [a][1..] == [];
  }

  // --- deletions ---

  /** Each victim is a file under the destination, and none is named twice. */
  ghost predicate Deletable(fs: Fs, at: Path, victims: seq<string>) {
    && Distinct(victims)
    && forall v :: v in victims ==> Plain(Names(v)) && Names(v) != [] && at + Names(v) in fs.files
  }

  lemma NotBlocked(fs: Fs, q: Path)
    requires FsOk(fs) && q in fs.files
    ensures !Blocked(fs.files, q)
  {
    forall j | 0 <= j < |q| ensures q[..j] !in fs.files {
      FilesApart(fs, q, q[..j]);
    }
  }

  lemma {:induction false} RemoveSucceeds(fs: Fs, at: Path, victims: seq<string>, fails: Path -> bool)
    requires FsOk(fs) && Deletable(fs, at, victims) && forall q :: !fails(q)
    ensures RemoveAll(fs, at, victims, fails).1
    decreases |victims|
  {
    if victims != [] {
      var v, rest := victims[0], victims[1..];
      assert v in victims && forall x :: x in rest ==> x in victims;
      LandNames(at, v);
      var q := at + Names(v);
      NotBlocked(fs, q);
      var next := Without(fs, q);
      forall i, j | 0 <= i < |rest| && 0 <= j < |rest| ensures Apart(rest, i, j) {
        assert Apart(victims, i + 1, j + 1);
      }
      forall x | x in rest ensures at + Names(x) in next.files {
        var j :| 0 <= j < |rest| && rest[j] == x;
        assert Apart(victims, 0, j + 1);
        LandNames(at, x);
        assert (at + Names(x))[|at|..] == Names(x) && q[|at|..] == Names(v);
      }
      WithoutKeepsFs(fs, q);
      RemoveSucceeds(next, at, rest, fails);
    }
  }

  // --- placements ---

  /** No file above a key, no directory at one, and no key above another. */
  ghost predicate Roomy(fs: Fs, at: Path, order: seq<Path>) {
    && (forall k, q :: k in order && q in fs.files ==> !(q < at + k))
    && (forall k :: k in order ==> k != [] && at + k !in fs.dirs)
    && (forall k, j :: k in order && j in order ==> !(at + k < at + j))
  }

  lemma RoomAfter(fs: Fs, at: Path, order: seq<Path>, n: Node)
    requires order != [] && Roomy(fs, at, order)
    ensures Roomy(With(fs, at + order[0], n), at, order[1..])
  {
    var q := at + order[0];
    var next := With(fs, q, n);
    assert order[0] in order && forall k :: k in order[1..] ==> k in order;
    forall k | k in order[1..] ensures at + k !in next.dirs {
      if at + k in Parents(q) { ParentsNest(q, at + k); }
    }
  }

  lemma {:induction false} PlaceSucceeds(fs: Fs, at: Path, order: seq<Path>, tree: Files, fails: Path -> bool)
    requires Roomy(fs, at, order) && (forall q :: !fails(q)) && forall k :: k in order ==> k in tree
    ensures PlaceAll(fs, at, order, tree, fails).1
    decreases |order|
  {
    if order != [] {
      var k, rest := order[0], order[1..];
      assert k in order && forall x :: x in rest ==> x in order;
      var q := at + k;
      forall j | 0 <= j < |q| ensures q[..j] !in fs.files { assert q[..j] < at + k; }
      RoomAfter(fs, at, order, tree[k]);
      PlaceSucceeds(With(fs, q, tree[k]), at, rest, tree, fails);
    }
  }

  // --- the sync ---

  /** The destination can hold the source: no file stands at or above it, no source file's path is
      a directory of the target, and, unless what the source lacks is deleted first, no file
      stands where a source file needs a directory. */
  ghost predicate Fitting(k: Task, y: Sync, fs: Fs) {
    && (forall q :: q in fs.files ==> !(q <= y.at))
    && (forall p :: p in k.source ==> y.at + Names(p) !in fs.dirs)
    && (!y.del ==> forall p, q :: p in k.source && q in fs.files ==> !(q < y.at + Names(p)))
  }

  /** The whole stream arrived, and nothing failed on the way to the destination. */
  ghost predicate Smooth(k: Task, y: Sync, fs: Fs)
    requires SourceOk(k.source)
  {
    var a := y.first;
    && a.attached && a.sent && a.ctx.w == k.w && !y.listFails && (forall q :: !y.fails(q))
    && (forall x :: x in a.arrivals ==> !x.ioFails)
    && (forall p :: p in k.source ==> k.disk(p).opens && k.disk(p).intact)
    && Own(a.ctx.id, a.arrivals) ==
       HostStream(k.w, a.ctx.id, Scan(k.w, fs, y.at, k.bySum), k.source, k.disk, k.bySum, false)
  }

  lemma SmoothEnds(k: Task, y: Sync, fs: Fs)
    requires TaskOk(k) && Smooth(k, y, fs)
    ensures var have := Scan(k.w, fs, y.at, k.bySum);
            var sent := Delta(k.w, have, k.source, k.bySum);
            Stream(y.first, map[]) ==
              Ended(|sent|, Extras(have, k.source), Staged(map[], k.source, sent, y.first.ctx.stamp))
  {
    OwnOnly(y.first.ctx, Run(None, map[]), y.first.arrivals);
    FramingRoundTrip(y.first.ctx, Scan(k.w, fs, y.at, k.bySum), k.source, k.disk, k.bySum);
  }

  lemma ExtrasDistinct(have: Manifest, source: Source)
    ensures Distinct(Extras(have, source))
  {
    SortedSeqSorts(have.Keys - source.Keys);
    SortedDistinct(SortedSeq(have.Keys - source.Keys));
  }

  lemma ExtrasDeletable(k: Task, fs: Fs, at: Path, extras: seq<string>)
    requires FsOk(fs) && (forall q :: q in fs.files ==> !(q <= at))
    requires Distinct(extras) && forall v :: v in extras ==> v in Scan(k.w, fs, at, k.bySum)
    ensures Deletable(fs, at, extras)
  {
    forall v | v in extras ensures Plain(Names(v)) && Names(v) != [] && at + Names(v) in fs.files {
      ScanKeys(k.w, fs, at, k.bySum, v);
      assert at + [] == at;
    }
  }

  lemma SourceApart(source: Source, at: Path, a: Path, b: Path)
    requires SourceOk(source) && Plain(a) && Plain(b) && a != [] && b != [] && Text(a) in source && Text(b) in source
    ensures !(at + a < at + b)
  {
    NamesOfText(a);
    NamesOfText(b);
    assert !Nested(Text(a), Text(b));
    BelowSame(at, a, b);
  }

  lemma BelowSame(at: Path, a: Path, b: Path)
    ensures at + a < at + b <==> a < b
  {
    if |a| < |b| {
      assert (at + b)[..|at + a|] == at + b[..|a|];
      if at + b[..|a|] == at + a { assert (at + b[..|a|])[|at|..] == b[..|a|] && (at + a)[|at|..] == a; }
    }
  }

  lemma KeptApart(k: Task, y: Sync, fs: Fs, names: Path, n: Path)
    requires SourceOk(k.source) && FsOk(fs) && y.del && names != [] && y.at + names in fs.files &&
            !Gone(k, y, fs, y.at + names)
    requires Plain(n) && n != [] && Text(n) in k.source
    ensures !(y.at + names < y.at + n)
  {
    var q := y.at + names;
    assert q[|y.at|..] == names && forall x :: x in names ==> x in q;
    SourceApart(k.source, y.at, names, n);
  }

  /** Without deletion nothing stands above a source file. */
  lemma NothingAbove(k: Task, y: Sync, fs: Fs, q: Path, n: Path)
    requires SourceOk(k.source) && Fitting(k, y, fs) && !y.del && q in fs.files
    requires Plain(n) && Text(n) in k.source
    ensures !(q < y.at + n)
  {
    NamesOfText(n);
    var p := Text(n);
    assert p in k.source && !(q < y.at + Names(p));
  }

  /** With it, what is left under the destination does not. */
  lemma LeftUnder(k: Task, y: Sync, fs: Fs, q: Path, n: Path)
    requires SourceOk(k.source) && FsOk(fs) && y.del && q in fs.files && y.at < q && !Gone(k, y, fs, q)
    requires Plain(n) && n != [] && Text(n) in k.source
    ensures !(q < y.at + n)
  {
    assert q == y.at + q[|y.at|..];
    KeptApart(k, y, fs, q[|y.at|..], n);
  }

  /** What is left after the deletions stands above no source file. */
  lemma LeftFits(k: Task, y: Sync, fs: Fs, q: Path, n: Path)
    requires SourceOk(k.source) && FsOk(fs) && Fitting(k, y, fs) && q in fs.files && !Gone(k, y, fs, q)
    requires Plain(n) && n != [] && Text(n) in k.source
    ensures !(q < y.at + n)
  {
    if !y.del {
      NothingAbove(k, y, fs, q, n);
    } else {
      assert !(q <= y.at);
      if y.at <= q {
        LeftUnder(k, y, fs, q, n);
      } else if q < y.at + n {
        PrefixOfBoth(y.at, n, q);
      }
    }
  }

  lemma PrefixOfBoth(at: Path, n: Path, q: Path)
    requires q < at + n
    ensures q <= at || at <= q
  {
    if |q| <= |at| { assert q == (at + n)[..|q|] == at[..|q|]; } else { assert q[..|at|] == (at + n)[..|at|] == at; }
  }

  /** A sync whose stream arrives whole succeeds. */
  lemma SyncSucceeds(k: Task, y: Sync, fs: Fs)
    requires TaskOk(k) && FsOk(fs) && WalkOk(y.walk) && (y.del ==> OneLine(fs, y.at))
    requires Smooth(k, y, fs) && Fitting(k, y, fs)
    ensures RunSync(y, fs).1.Ok?
  {
    var have, stamp := Scan(k.w, fs, y.at, k.bySum), y.first.ctx.stamp;
    SmoothEnds(k, y, fs);
    var sent := Delta(k.w, have, k.source, k.bySum);
    var tree := Staged(map[], k.source, sent, stamp);
    DeltaDistinct(k.w, have, k.source, k.bySum);
    StagedCount(map[], k.source, sent, stamp);
    StagedLands(k, have, stamp);
    CommitSucceeds(k, y, fs, Extras(have, k.source), tree, stamp);
    EndsWell(y, fs, |sent|, Extras(have, k.source), tree);
  }

  lemma EndsWell(y: Sync, fs: Fs, n: nat, extras: seq<string>, tree: Files)
    requires WalkOk(y.walk) && Stream(y.first, map[]) == Ended(n, extras, tree)
    requires |tree| == n && !y.listFails && Commit(y, fs, extras, tree).1
    ensures RunSync(y, fs).1.Ok?
  {
  }

  lemma CommitSucceeds(k: Task, y: Sync, fs: Fs, extras: seq<string>, tree: Files, stamp: int)
    requires TaskOk(k) && FsOk(fs) && WalkOk(y.walk) && (y.del ==> OneLine(fs, y.at))
    requires Fitting(k, y, fs) && (forall q :: !y.fails(q))
    requires extras == Extras(Scan(k.w, fs, y.at, k.bySum), k.source) &&
            Lands(k, Scan(k.w, fs, y.at, k.bySum), tree, stamp)
    ensures Commit(y, fs, extras, tree).1
  {
    var have := Scan(k.w, fs, y.at, k.bySum);
    ExtrasAre(have, k.source);
    forall v | y.del && v in extras ensures v != "" && '\n' !in v { ExtraIsLine(k, fs, y.at, v); }
    VictimsAre(y, extras);
    ExtrasDistinct(have, k.source);
    ExtrasDeletable(k, fs, y.at, extras);
    var victims := Victims(y, extras);
    RemoveSucceeds(fs, y.at, victims, y.fails);
    DeletesGone(k, y, fs, victims);
    DirsStay(k, y, fs, victims);
    var fs1 := RemoveAll(fs, y.at, victims, y.fails).0;
    WalkIn(y.walk, tree);
    forall n, q | n in tree && q in fs1.files ensures !(q < y.at + n) {
      assert Lookup(fs1, q).Some?;
      LeftFits(k, y, fs, q, n);
    }
    forall n | n in tree ensures y.at + n !in fs1.dirs { assert Text(n) in k.source && Names(Text(n)) == n; }
    forall n, j | n in tree && j in tree ensures !(y.at + n < y.at + j) { SourceApart(k.source, y.at, n, j); }
    PlaceSucceeds(fs1, y.at, y.walk(tree.Keys), tree, y.fails);
  }

  // --- a directory in the way ---

  /** A source file whose path is a directory of the target makes the sync fail, whatever the
      deletions, the stream and the luck: removing what is in the directory leaves the directory. */
  lemma DirectoryInTheWay(k: Task, y: Sync, fs: Fs, p: string)
    requires SyncOk(k, y, fs) && (y.del ==> OneLine(fs, y.at))
    requires p in k.source && y.at + Names(p) in fs.dirs
    ensures RunSync(y, fs).1 == Failed
  {
    if RunSync(y, fs).1.Ok? {
      var have := Scan(k.w, fs, y.at, k.bySum);
      var a := Deciding(y);
      FinalIs(y);
      HonestEnds(k, a, have);
      var tree := Final(y).landed;
      StagedLands(k, have, a.ctx.stamp);
      CommitMakesDirs(k, y, fs, Extras(have, k.source), tree, a.ctx.stamp);
      LandNames([], p);
      ScanIs(k.w, fs, y.at, k.bySum, Names(p));
      assert Due(k, have, p);
    }
  }

  /** So with a smooth transfer and no file in the way, the sync succeeds exactly when no source
      file's path is a directory of the target. */
  lemma SucceedsExactly(k: Task, y: Sync, fs: Fs)
    requires SyncOk(k, y, fs) && (y.del ==> OneLine(fs, y.at)) && Smooth(k, y, fs)
    requires forall q :: q in fs.files ==> !(q <= y.at)
    requires !y.del ==> forall p, q :: p in k.source && q in fs.files ==> !(q < y.at + Names(p))
    ensures RunSync(y, fs).1.Ok? <==> forall p :: p in k.source ==> y.at + Names(p) !in fs.dirs
  {
    if forall p :: p in k.source ==> y.at + Names(p) !in fs.dirs {
      SyncSucceeds(k, y, fs);
    } else {
      var p :| p in k.source && y.at + Names(p) in fs.dirs;
      DirectoryInTheWay(k, y, fs, p);
    }
  }

  /** The target holds `d/a/b`; the source has a file `a`. */
  function Emptied(): Fs {
    Fs(map[["d", "a", "b"] := File("old", 420, 1)], {["d"], ["d", "a"]})
  }

  ghost predicate EmptiedAt(fs: Fs, at: Path) {
    fs == Emptied() && at == ["d"]
  }

  lemma EmptiedIsPlain(fs: Fs, at: Path)
    requires EmptiedAt(fs, at)
    ensures OneLine(fs, at) && at + Names("a") in fs.dirs
  {
    SplitOne("a", '/');
    assert at + Names("a") == ["d", "a"];
    forall q | q in fs.files && at <= q ensures forall n :: n in q[|at|..] ==> '\n' !in n {
      assert q[1..] == ["a", "b"];
    }
  }

  /** Deleting `d/a/b` leaves the directory `d/a`, and the file `a` cannot be placed: the sync
      with deletion fails. */
  lemma EmptiedDirectoryBlocks(k: Task, y: Sync, fs: Fs)
    requires EmptiedAt(fs, y.at) && SyncOk(k, y, fs) && y.del && "a" in k.source
    ensures RunSync(y, fs).1 == Failed
  {
    EmptiedIsPlain(fs, y.at);
    DirectoryInTheWay(k, y, fs, "a");
  }
}
